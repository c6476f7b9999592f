/** No step of the log writes the same event twice. */
module EventsOnce {
  import opened Basics
  import opened Json
  import opened Ordering
  import opened FieldDiff
  import opened ListDiff
  import opened Anchors
  import opened AnchorLog
  import opened RowReplay
  import opened SingleReplay
  import opened LogReplay

  lemma DistinctConcat<T(!new)>(s: seq<T>, t: seq<T>)
    requires Distinct(s) && Distinct(t) && forall x | x in s :: x !in t
    ensures Distinct(s + t)
  {
    forall i, j | 0 <= i < j < |s + t| ensures (s + t)[i] != (s + t)[j] {
      if i < |s| <= j { assert s[i] in s && t[j - |s|] in t; }
    }
  }

  lemma {:induction false} DistinctFlatten<T(!new)>(parts: seq<seq<T>>)
    requires forall i | 0 <= i < |parts| :: Distinct(parts[i])
    requires forall i, j, x | 0 <= i < j < |parts| && x in parts[i] :: x !in parts[j]
    ensures Distinct(Flatten(parts))
  {
    if parts != [] {
      var n := |parts| - 1;
      DistinctFlatten(parts[..n]);
      forall x | x in Flatten(parts[..n]) ensures x !in parts[n] {
        FlattenMember(parts[..n], x);
        var i :| 0 <= i < n && x in parts[..n][i];
        assert x in parts[i];
      }
      DistinctConcat(Flatten(parts[..n]), parts[n]);
    }
  }

  lemma {:induction false} RowEventsDistinct(spec: RowSpec, rows: seq<Dict>, kind: Kind)
    requires Distinct(rows)
    ensures Distinct(RowEvents(spec, rows, kind))
  {
    if rows != [] {
      var n := |rows| - 1;
      RowEventsDistinct(spec, rows[..n], kind);
      forall e | e in RowEvents(spec, rows[..n], kind) ensures e !in RowEvent(spec, rows[n], kind) {
        RowEventsMember(spec, rows[..n], kind, e);
        assert e.value.fields != rows[n];
      }
      DistinctConcat(RowEvents(spec, rows[..n], kind), RowEvent(spec, rows[n], kind));
    }
  }

  lemma {:induction false} LookupsDistinct(table: map<string, Dict>, keys: seq<string>, key: Key)
    requires Filed(table, key) && Distinct(keys)
    ensures Distinct(Lookups(table, keys))
  {
    if keys != [] {
      var n := |keys| - 1;
      LookupsDistinct(table, keys[..n], key);
      var last := if keys[n] in table then [table[keys[n]]] else [];
      forall r | r in Lookups(table, keys[..n]) ensures r !in last { LookupsMember(table, keys[..n], r); }
      DistinctConcat(Lookups(table, keys[..n]), last);
    }
  }

  lemma RowsDistinct(rowOf: map<string, Dict>, s: set<string>, key: Key)
    requires s <= rowOf.Keys && Filed(rowOf, key)
    ensures (forall k | k in SortedKeys(s) :: k in rowOf) && Distinct(Rows(rowOf, SortedKeys(s)))
  {
    KeysIn(s);
    SortedKeysSize(s);
    var keys := SortedKeys(s);
    forall i, j | 0 <= i < j < |keys| ensures rowOf[keys[i]] != rowOf[keys[j]] { assert keys[i] != keys[j]; }
  }

  lemma DiffDistinct(A: seq<Dict>, B: seq<Dict>, key: Key, ordered: bool)
    ensures var d := DiffList(A, B, key, ordered);
      && Distinct(d.added) && Distinct(d.removed)
      && Distinct(ItemKeys(d.modified)) && Distinct(ReorderKeys(d.reordered))
  {
    hide DiffTables; hide Reorders; hide ByKey; hide IndexByKey;
    ByKeyFiled(A, key);
    ByKeyFiled(B, key);
    TablesDistinct(ByKey(A, key), ByKey(B, key), key);
    if ordered { ReorderKeysDistinct(A, B, key); }
  }

  lemma TablesDistinct(aBy: map<string, Dict>, bBy: map<string, Dict>, key: Key)
    requires Filed(aBy, key) && Filed(bBy, key)
    ensures var d := DiffTables(aBy, bBy);
      Distinct(d.added) && Distinct(d.removed) && Distinct(ItemKeys(d.modified))
  {
    hide FieldChanges; hide SortedKeys; hide ModifiedKeys; hide Distinct;
    RowsDistinct(bBy, bBy.Keys - aBy.Keys, key);
    RowsDistinct(aBy, aBy.Keys - bBy.Keys, key);
    ItemKeysSorted(aBy, bBy);
    SortedKeysSize(ModifiedKeys(aBy, bBy));
  }

  lemma ItemKeysSorted(aBy: map<string, Dict>, bBy: map<string, Dict>)
    ensures ItemKeys(DiffTables(aBy, bBy).modified) == SortedKeys(ModifiedKeys(aBy, bBy))
  {
    hide FieldChanges; hide SortedKeys; hide Rows;
    KeysIn(ModifiedKeys(aBy, bBy));
  }

  lemma ReorderKeysDistinct(A: seq<Dict>, B: seq<Dict>, key: Key)
    ensures Distinct(ReorderKeys(DiffList(A, B, key, true).reordered))
  {
    hide DiffTables; hide Reorders;
    var rs := DiffList(A, B, key, true).reordered;
    ReordersAscending(IndexByKey(A, key), IndexByKey(B, key), B, key, |B|);
    forall i, j | 0 <= i < j < |rs| ensures rs[i].key != rs[j].key {
      ReorderedMember(A, B, key, rs[i]);
      ReorderedMember(A, B, key, rs[j]);
    }
  }

  lemma StepRowsDistinct(a: Config, b: Config, spec: RowSpec)
    ensures Distinct(StepRows(a, b, spec))
  {
    hide DiffList; hide ByKey; hide KeyedRows; hide Lookups; hide RowEvents;
    var A, B, key := RowsOf(a, spec.section), RowsOf(b, spec.section), DiffKey(spec);
    var d := DiffList(A, B, key, OrderSensitive(spec.section));
    var table := ByKey(KeyedRows(spec, B), key);
    DiffDistinct(A, B, key, OrderSensitive(spec.section));
    ByKeyFiled(KeyedRows(spec, B), key);
    LookupsDistinct(table, ItemKeys(d.modified), key);
    LookupsDistinct(table, ReorderKeys(d.reordered), key);
    FourKinds(spec, d.added, d.removed, Lookups(table, ItemKeys(d.modified)), Lookups(table, ReorderKeys(d.reordered)));
  }

  lemma FourKinds(spec: RowSpec, p: seq<Dict>, q: seq<Dict>, r: seq<Dict>, s: seq<Dict>)
    requires Distinct(p) && Distinct(q) && Distinct(r) && Distinct(s)
    ensures Distinct(RowEvents(spec, p, Added) + RowEvents(spec, q, Removed)
                     + RowEvents(spec, r, Modified) + RowEvents(spec, s, Reordered))
  {
    hide RowEvents;
    RowEventsDistinct(spec, p, Added);
    RowEventsDistinct(spec, q, Removed);
    RowEventsDistinct(spec, r, Modified);
    RowEventsDistinct(spec, s, Reordered);
    forall e ensures e in RowEvents(spec, p, Added) ==> e.kind == Added { RowEventsMember(spec, p, Added, e); }
    forall e ensures e in RowEvents(spec, q, Removed) ==> e.kind == Removed { RowEventsMember(spec, q, Removed, e); }
    forall e ensures e in RowEvents(spec, r, Modified) ==> e.kind == Modified { RowEventsMember(spec, r, Modified, e); }
    forall e ensures e in RowEvents(spec, s, Reordered) ==> e.kind == Reordered {
      RowEventsMember(spec, s, Reordered, e);
    }
    DistinctConcat(RowEvents(spec, p, Added), RowEvents(spec, q, Removed));
    DistinctConcat(RowEvents(spec, p, Added) + RowEvents(spec, q, Removed), RowEvents(spec, r, Modified));
    DistinctConcat(RowEvents(spec, p, Added) + RowEvents(spec, q, Removed) + RowEvents(spec, r, Modified),
                   RowEvents(spec, s, Reordered));
  }

  lemma SameFieldAnchor(s: string, f: string, t: string, g: string)
    requires s in SINGLETONS && t in SINGLETONS && LegalField(s, f) && LegalField(t, g)
    requires FieldAnchorOf(s, f) == FieldAnchorOf(t, g)
    ensures s == t && f == g
  {
    AliasesInverse(s, f);
    AliasesInverse(t, g);
  }

  lemma {:induction false} WholeEventsDistinct(s: string, whole: Dict, fields: seq<string>, kind: Kind)
    requires s in SINGLETONS && Distinct(fields) && forall f | f in fields :: LegalField(s, f)
    ensures Distinct(WholeEvents(s, whole, fields, kind))
  {
    hide FieldAnchorOf; hide LegalField;
    if fields != [] {
      var n := |fields| - 1;
      WholeEventsDistinct(s, whole, fields[..n], kind);
      var init, last := WholeEvents(s, whole, fields[..n], kind), FieldEvent(s, fields[n], kind, Get(whole, fields[n]));
      forall e | e in init ensures e !in last {
        WholeEventsMember(s, whole, fields[..n], kind, e);
        var f :| f in fields[..n] && '.' !in f && e == Event(FieldAnchorOf(s, f), kind, Get(whole, f));
        if e in last { SameFieldAnchor(s, f, s, fields[n]); }
      }
      DistinctConcat(init, last);
    }
  }

  /** Changes at distinct paths of legal fields. */
  ghost predicate LegalChanges(s: string, cs: seq<Change>) {
    && (forall c | c in cs && |c.path| == 1 :: LegalField(s, c.path[0]))
    && (forall i, j | 0 <= i < j < |cs| :: cs[i].path != cs[j].path)
  }

  lemma OneEvent(s: string, c: Change)
    ensures |ChangeEvent(s, c)| <= 1
    ensures forall e | e in ChangeEvent(s, c) :: |c.path| == 1 && e.anchor == FieldAnchorOf(s, c.path[0])
  {
    hide FieldAnchorOf;
  }

  lemma {:induction false} ChangeEventsDistinct(s: string, cs: seq<Change>)
    requires s in SINGLETONS && LegalChanges(s, cs)
    ensures Distinct(ChangeEvents(s, cs))
  {
    hide FieldAnchorOf; hide LegalField; hide ChangeEvent;
    if cs != [] {
      var n := |cs| - 1;
      ChangeEventsDistinct(s, cs[..n]);
      var init, last := ChangeEvents(s, cs[..n]), ChangeEvent(s, cs[n]);
      OneEvent(s, cs[n]);
      forall e | e in init ensures e !in last {
        ChangeEventsMember(s, cs[..n], e);
        var c :| c in cs[..n] && e in ChangeEvent(s, c);
        if e in last {
          OneEvent(s, c);
          SameFieldAnchor(s, c.path[0], s, cs[n].path[0]);
        }
      }
      DistinctConcat(init, last);
    }
  }

  lemma FieldChangesLegal(a: Config, b: Config, s: string)
    requires s in SINGLETONS && Legal(a) && Legal(b) && s in a.singles && s in b.singles
    ensures LegalChanges(s, FieldChanges(a.singles[s], b.singles[s]))
  {
    hide FieldChanges; hide LegalField;
    var x, y := a.singles[s], b.singles[s];
    var cs := FieldChanges(x, y);
    forall c | c in cs && |c.path| == 1 ensures LegalField(s, c.path[0]) {
      FieldChangesMember(x, y, c);
      assert c.path[0] in x || c.path[0] in y;
    }
    FieldChangesDistinct(x, y);
    forall i, j | 0 <= i < j < |cs| ensures cs[i].path != cs[j].path {
      if cs[i].path == cs[j].path {
        FieldChangesMember(x, y, cs[i]);
        FieldChangesMember(x, y, cs[j]);
        PathsPrefixFree(x, y, cs[i], cs[j]);
      }
    }
  }

  lemma StepSingleDistinct(a: Config, b: Config, s: string)
    requires s in SINGLETONS && Legal(a) && Legal(b)
    ensures Distinct(StepSingle(a, b, s))
  {
    hide FieldChanges; hide LegalField; hide LegalChanges; hide WholeEvents; hide ChangeEvents; hide SortedKeys;
    if s in a.singles && s in b.singles {
      FieldChangesLegal(a, b, s);
      ChangeEventsDistinct(s, FieldChanges(a.singles[s], b.singles[s]));
    } else if s in b.singles {
      KeysIn(b.singles[s].Keys);
      SortedKeysSize(b.singles[s].Keys);
      WholeEventsDistinct(s, b.singles[s], SortedKeys(b.singles[s].Keys), Added);
    } else if s in a.singles {
      KeysIn(a.singles[s].Keys);
      SortedKeysSize(a.singles[s].Keys);
      WholeEventsDistinct(s, a.singles[s], SortedKeys(a.singles[s].Keys), Removed);
    }
  }

  /** No step writes the same event twice. */
  lemma ProjectDistinct(a: Config, b: Config)
    requires Legal(a) && Legal(b)
    ensures Distinct(Project(a, b))
  {
    hide StepRows; hide StepSingle; hide Legal; hide LegalField;
    var rows, singles := RowSteps(a, b, ROW_SPECS), SingleSteps(a, b, SINGLETONS);
    forall i | 0 <= i < |rows| ensures Distinct(rows[i]) { StepRowsDistinct(a, b, ROW_SPECS[i]); }
    forall i, j, e | 0 <= i < j < |rows| && e in rows[i] ensures e !in rows[j] {
      KindsDistinct(i, j);
      StepRowsKind(a, b, ROW_SPECS[i], e);
      if e in rows[j] { StepRowsKind(a, b, ROW_SPECS[j], e); }
    }
    DistinctFlatten(rows);
    SinglePartsDistinct(a, b);
    forall e | e in Flatten(rows) ensures e !in Flatten(singles) {
      RowStepsMember(a, b, ROW_SPECS, e);
      SingleStepsMember(a, b, SINGLETONS, e);
      var spec :| spec in ROW_SPECS && e in StepRows(a, b, spec);
      StepRowsKind(a, b, spec, e);
      if s :| s in SINGLETONS && e in StepSingle(a, b, s) { StepSingleKind(a, b, s, e); }
    }
    DistinctConcat(Flatten(rows), Flatten(singles));
  }

  lemma SinglePartsDistinct(a: Config, b: Config)
    requires Legal(a) && Legal(b)
    ensures Distinct(Flatten(SingleSteps(a, b, SINGLETONS)))
  {
    hide StepSingle; hide Legal; hide LegalField; hide FieldAnchorOf;
    var singles := SingleSteps(a, b, SINGLETONS);
    forall i | 0 <= i < |singles| ensures Distinct(singles[i]) { StepSingleDistinct(a, b, SINGLETONS[i]); }
    forall i, j, e | 0 <= i < j < |singles| && e in singles[i] ensures e !in singles[j] {
      SingletonsDistinct(i, j);
      SingleStepSound(a, b, SINGLETONS[i], e);
      var f :| FieldSound(a, b, SINGLETONS[i], e, f);
      if e in singles[j] {
        SingleStepSound(a, b, SINGLETONS[j], e);
        var g :| FieldSound(a, b, SINGLETONS[j], e, g);
        SameFieldAnchor(SINGLETONS[i], f, SINGLETONS[j], g);
      }
    }
    DistinctFlatten(singles);
  }
}
