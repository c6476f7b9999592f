/** Replaying the log gives the snapshot: row sections, singleton sections, whole chains. */
module RowReplay {
  import opened Basics
  import opened Json
  import opened FieldDiff
  import opened ListDiff
  import opened Anchors
  import opened AnchorLog

  /** Diff key and anchor id tell the same rows apart, and an anchored row has a diff key. */
  ghost predicate Aligned(spec: RowSpec, rows: seq<Dict>) {
    && (forall r, s | r in rows && s in rows && DiffKey(spec)(r) == DiffKey(spec)(s) ::
          AnchorOf(spec, r) == AnchorOf(spec, s))
    && (forall r, s | r in rows && s in rows && AnchorOf(spec, r).Some? && AnchorOf(spec, r) == AnchorOf(spec, s) ::
          DiffKey(spec)(r) == DiffKey(spec)(s))
    && (forall r | r in rows && AnchorOf(spec, r).Some? :: Get(r, spec.diffField) != Null)
  }

  /** The same for one anchor: its rows have one diff key, and no other row has that key. */
  ghost predicate AlignedAt(spec: RowSpec, rows: seq<Dict>, x: Anchor) {
    forall r, s | r in rows && s in rows && AnchorOf(spec, r) == Some(x) ::
      Get(r, spec.diffField) != Null && (DiffKey(spec)(s) == DiffKey(spec)(r) <==> AnchorOf(spec, s) == Some(x))
  }

  lemma AlignedEverywhere(spec: RowSpec, rows: seq<Dict>, x: Anchor)
    requires Aligned(spec, rows)
    ensures AlignedAt(spec, rows, x)
  {}

  /** Where one column is both keys, it is enough that every row has one and that the
      sanitiser does not merge two of them. */
  lemma SafeInjectiveAligns(spec: RowSpec, rows: seq<Dict>)
    requires spec.anchorField == spec.diffField
    requires forall r | r in rows :: Get(r, spec.diffField).Str?
    requires forall r, s | r in rows && s in rows && Safe(DiffKey(spec)(r)) == Safe(DiffKey(spec)(s)) ::
               DiffKey(spec)(r) == DiffKey(spec)(s)
    ensures Aligned(spec, rows)
  {}

  lemma {:induction false} LastSuchIsLast(rows: seq<Dict>, p: Dict -> bool)
    ensures match LastSuch(rows, p)
      case None => forall i | 0 <= i < |rows| :: !p(rows[i])
      case Some(r) => exists i | 0 <= i < |rows| :: rows[i] == r && p(r) && forall j | i < j < |rows| :: !p(rows[j])
  {
    if rows != [] {
      var n := |rows| - 1;
      if !p(rows[n]) {
        LastSuchIsLast(rows[..n], p);
        if r :| LastSuch(rows[..n], p) == Some(r) {
          var i :| 0 <= i < n && rows[..n][i] == r && p(r) && forall j | i < j < n :: !p(rows[..n][j]);
          assert forall j | i < j < |rows| :: !p(rows[j]) by {
            forall j | i < j < |rows| ensures !p(rows[j]) { if j < n { assert rows[j] == rows[..n][j]; } }
          }
        } else {
          forall i | 0 <= i < |rows| ensures !p(rows[i]) { if i < n { assert rows[i] == rows[..n][i]; } }
        }
      } else {
        assert rows[n] == rows[n] && p(rows[n]);
      }
    }
  }

  /** With aligned keys, the last row of an anchor is the table row of its diff key. */
  lemma LastRowInTable(spec: RowSpec, rows: seq<Dict>, x: Anchor)
    requires AlignedAt(spec, rows, x)
    ensures match LastRow(rows, spec, x)
      case None => forall r | r in rows :: AnchorOf(spec, r) != Some(x)
      case Some(r) =>
        && r in rows && AnchorOf(spec, r) == Some(x)
        && DiffKey(spec)(r) in ByKey(rows, DiffKey(spec)) && ByKey(rows, DiffKey(spec))[DiffKey(spec)(r)] == r
  {
    hide IndexByKey;
    hide ByKey;
    hide LastSuch;
    hide Norm;
    hide Safe;
    var key := DiffKey(spec);
    var p := (r: Dict) => AnchorOf(spec, r) == Some(x);
    LastSuchIsLast(rows, p);
    match LastRow(rows, spec, x) {
      case None =>
        forall r | r in rows ensures AnchorOf(spec, r) != Some(x) {
          var i :| 0 <= i < |rows| && rows[i] == r;
          assert !p(rows[i]);
        }
      case Some(r) =>
        var i :| 0 <= i < |rows| && rows[i] == r && p(r) && forall j | i < j < |rows| :: !p(rows[j]);
        ByKeyIsLast(rows, key, key(r));
        var t := IndexByKey(rows, key)[key(r)];
        assert AnchorOf(spec, rows[t]) == AnchorOf(spec, r);
        assert p(rows[t]) && t <= i;
    }
  }

  /** by_diff_key agrees with the whole table on a key all of whose rows are keyed. */
  lemma {:induction false} KeyedTableAt(spec: RowSpec, rows: seq<Dict>, k: string)
    requires forall r | r in rows && DiffKey(spec)(r) == k :: Get(r, spec.diffField) != Null
    ensures var t, all := ByKey(KeyedRows(spec, rows), DiffKey(spec)), ByKey(rows, DiffKey(spec));
      (k in t <==> k in all) && (k in t ==> t[k] == all[k])
  {
    if rows != [] {
      var n := |rows| - 1;
      KeyedTableAt(spec, rows[..n], k);
      var init := KeyedRows(spec, rows[..n]);
      if Get(rows[n], spec.diffField) != Null {
        assert (init + [rows[n]])[..|init|] == init;
      } else {
        assert init + [] == init;
      }
    }
  }

  lemma TableRow(rows: seq<Dict>, key: Key, k: string)
    requires k in ByKey(rows, key)
    ensures ByKey(rows, key)[k] in rows && key(ByKey(rows, key)[k]) == k
  {
    ByKeyIsLast(rows, key, k);
  }

  lemma RowInTable(rows: seq<Dict>, key: Key, r: Dict)
    requires r in rows
    ensures key(r) in ByKey(rows, key)
  {
    ByKeyIsLast(rows, key, key(r));
    var i :| 0 <= i < |rows| && rows[i] == r;
    assert key(rows[i]) == key(r);
  }

  /** An anchored row of the new table is what the new snapshot shows at its anchor. */
  lemma TableRowValue(spec: RowSpec, rows: seq<Dict>, k: string, x: Anchor)
    requires AlignedAt(spec, rows, x) && k in ByKey(rows, DiffKey(spec))
    requires AnchorOf(spec, ByKey(rows, DiffKey(spec))[k]) == Some(x)
    ensures RowValue(rows, spec, x) == Some(Norm(Obj(ByKey(rows, DiffKey(spec))[k])))
  {
    TableRow(rows, DiffKey(spec), k);
    LastRowInTable(spec, rows, x);
  }

  /** An anchor no row of the snapshot has shows nothing. */
  lemma NoRowNoValue(spec: RowSpec, rows: seq<Dict>, x: Anchor)
    requires AlignedAt(spec, rows, x) && forall r | r in rows :: AnchorOf(spec, r) != Some(x)
    ensures RowValue(rows, spec, x) == None
  {
    LastRowInTable(spec, rows, x);
  }

  lemma AlignedParts(spec: RowSpec, A: seq<Dict>, B: seq<Dict>, x: Anchor)
    requires AlignedAt(spec, A + B, x)
    ensures AlignedAt(spec, A, x) && AlignedAt(spec, B, x)
  {
    assert forall r | r in A :: r in A + B;
    assert forall r | r in B :: r in A + B;
  }

  /** A table row on one side whose key the other side lacks: the other side shows nothing at its anchor. */
  lemma AbsentOnOtherSide(spec: RowSpec, here: seq<Dict>, there: seq<Dict>, r: Dict, x: Anchor)
    requires AlignedAt(spec, here + there, x) && r in here && AnchorOf(spec, r) == Some(x)
    requires DiffKey(spec)(r) !in ByKey(there, DiffKey(spec))
    ensures RowValue(there, spec, x) == None
  {
    AlignedParts(spec, here, there, x);
    forall s | s in there ensures AnchorOf(spec, s) != Some(x) {
      RowInTable(there, DiffKey(spec), s);
      assert r in here + there && s in here + there;
    }
    NoRowNoValue(spec, there, x);
  }

  lemma AlignedSwap(spec: RowSpec, A: seq<Dict>, B: seq<Dict>, x: Anchor)
    requires AlignedAt(spec, A + B, x)
    ensures AlignedAt(spec, B + A, x)
  {
    assert forall r | r in B + A :: r in A + B;
  }

  lemma AddedRow(spec: RowSpec, A: seq<Dict>, B: seq<Dict>, r: Dict, x: Anchor)
    requires AlignedAt(spec, A + B, x) && AnchorOf(spec, r) == Some(x)
    requires r in DiffTables(ByKey(A, DiffKey(spec)), ByKey(B, DiffKey(spec))).added
    ensures RowValue(B, spec, x) == Some(Norm(Obj(r))) && RowValue(A, spec, x) == None
  {
    var key := DiffKey(spec);
    ByKeyFiled(B, key);
    AddedMember(ByKey(A, key), ByKey(B, key), key, r);
    AlignedParts(spec, A, B, x);
    AlignedSwap(spec, A, B, x);
    TableRow(B, key, key(r));
    TableRowValue(spec, B, key(r), x);
    AbsentOnOtherSide(spec, B, A, r, x);
  }

  lemma RemovedRow(spec: RowSpec, A: seq<Dict>, B: seq<Dict>, r: Dict, x: Anchor)
    requires AlignedAt(spec, A + B, x) && AnchorOf(spec, r) == Some(x)
    requires r in DiffTables(ByKey(A, DiffKey(spec)), ByKey(B, DiffKey(spec))).removed
    ensures RowValue(A, spec, x) == Some(Norm(Obj(r))) && RowValue(B, spec, x) == None
  {
    var key := DiffKey(spec);
    ByKeyFiled(A, key);
    RemovedMember(ByKey(A, key), ByKey(B, key), key, r);
    AlignedParts(spec, A, B, x);
    TableRow(A, key, key(r));
    TableRowValue(spec, A, key(r), x);
    AbsentOnOtherSide(spec, A, B, r, x);
  }

  /** The row the projector looks up for a key is the row the new snapshot shows. */
  lemma LookedUpRow(spec: RowSpec, B: seq<Dict>, k: string, x: Anchor)
    requires AlignedAt(spec, B, x)
    ensures var table := ByKey(KeyedRows(spec, B), DiffKey(spec));
      k in table && AnchorOf(spec, table[k]) == Some(x) ==>
        k in ByKey(B, DiffKey(spec)) && table[k] == ByKey(B, DiffKey(spec))[k]
        && RowValue(B, spec, x) == Some(Norm(Obj(table[k])))
  {
    var key := DiffKey(spec);
    var table := ByKey(KeyedRows(spec, B), key);
    if k in table && AnchorOf(spec, table[k]) == Some(x) {
      TableRow(KeyedRows(spec, B), key, k);
      KeyedRowsMember(spec, B, table[k]);
      forall r | r in B && key(r) == k ensures Get(r, spec.diffField) != Null {
        assert AnchorOf(spec, r) == AnchorOf(spec, table[k]);
      }
      KeyedTableAt(spec, B, k);
      TableRowValue(spec, B, k, x);
    }
  }

  /** A key on both sides: the same anchor, and a changed row is a changed value. */
  lemma CommonRow(spec: RowSpec, A: seq<Dict>, B: seq<Dict>, k: string, x: Anchor)
    requires AlignedAt(spec, A + B, x)
    requires k in ByKey(A, DiffKey(spec)) && k in ByKey(B, DiffKey(spec))
    requires AnchorOf(spec, ByKey(B, DiffKey(spec))[k]) == Some(x)
    ensures var ra, rb := ByKey(A, DiffKey(spec))[k], ByKey(B, DiffKey(spec))[k];
      && RowValue(A, spec, x) == Some(Norm(Obj(ra))) && RowValue(B, spec, x) == Some(Norm(Obj(rb)))
      && (FieldChanges(ra, rb) == [] <==> RowValue(A, spec, x) == RowValue(B, spec, x))
  {
    var key := DiffKey(spec);
    AlignedParts(spec, A, B, x);
    TableRow(A, key, k);
    TableRow(B, key, k);
    var ra, rb := ByKey(A, key)[k], ByKey(B, key)[k];
    assert ra in A + B && rb in A + B;
    TableRowValue(spec, A, k, x);
    TableRowValue(spec, B, k, x);
    EmptyDiffIffAgree(ra, rb);
  }

  ghost function SectionEvents(spec: RowSpec, A: seq<Dict>, B: seq<Dict>, ordered: bool): seq<Event> {
    ProjectRows(spec, DiffList(A, B, DiffKey(spec), ordered), B)
  }

  lemma LookedUpMember(spec: RowSpec, B: seq<Dict>, keys: seq<string>, kind: Kind, e: Event)
    requires e in RowEvents(spec, Lookups(ByKey(KeyedRows(spec, B), DiffKey(spec)), keys), kind)
    ensures e.kind == kind
    ensures exists k :: && k in keys && k in ByKey(KeyedRows(spec, B), DiffKey(spec))
                       && e.value == Obj(ByKey(KeyedRows(spec, B), DiffKey(spec))[k])
                       && AnchorOf(spec, ByKey(KeyedRows(spec, B), DiffKey(spec))[k]) == Some(e.anchor)
  {
    var table := ByKey(KeyedRows(spec, B), DiffKey(spec));
    RowEventsMember(spec, Lookups(table, keys), kind, e);
    LookupsMember(table, keys, e.value.fields);
  }

  /** The event says what the new snapshot shows at its anchor, and unless it is a
      reorder it marks a changed value. */
  ghost predicate Sound(spec: RowSpec, A: seq<Dict>, B: seq<Dict>, e: Event) {
    && e.anchor.RowAnchor? && e.anchor.kind == spec.kind
    && Outcome(e) == RowValue(B, spec, e.anchor)
    && (e.kind != Reordered ==> RowValue(A, spec, e.anchor) != RowValue(B, spec, e.anchor))
  }

  /** An event that is not a removal leaves its row. */
  lemma RowOutcome(e: Event, r: Dict)
    requires e.kind != Removed && e.value == Obj(r)
    ensures Outcome(e) == Some(Norm(Obj(r)))
  {}

  lemma AddedSound(spec: RowSpec, A: seq<Dict>, B: seq<Dict>, e: Event)
    requires AlignedAt(spec, A + B, e.anchor)
    requires e in RowEvents(spec, DiffTables(ByKey(A, DiffKey(spec)), ByKey(B, DiffKey(spec))).added, Added)
    ensures Sound(spec, A, B, e)
  {
    RowEventsMember(spec, DiffTables(ByKey(A, DiffKey(spec)), ByKey(B, DiffKey(spec))).added, Added, e);
    AddedRow(spec, A, B, e.value.fields, e.anchor);
    RowOutcome(e, e.value.fields);
  }

  lemma RemovedSound(spec: RowSpec, A: seq<Dict>, B: seq<Dict>, e: Event)
    requires AlignedAt(spec, A + B, e.anchor)
    requires e in RowEvents(spec, DiffTables(ByKey(A, DiffKey(spec)), ByKey(B, DiffKey(spec))).removed, Removed)
    ensures Sound(spec, A, B, e)
  {
    RowEventsMember(spec, DiffTables(ByKey(A, DiffKey(spec)), ByKey(B, DiffKey(spec))).removed, Removed, e);
    RemovedRow(spec, A, B, e.value.fields, e.anchor);
  }

  lemma ItemKeyChanged(aBy: map<string, Dict>, bBy: map<string, Dict>, k: string)
    requires k in ItemKeys(DiffTables(aBy, bBy).modified)
    ensures k in aBy && k in bBy && FieldChanges(aBy[k], bBy[k]) != []
  {
    var x := ItemWithKey(DiffTables(aBy, bBy).modified, k);
    ModifiedMember(aBy, bBy, x);
  }

  lemma ItemWithKey(items: seq<Item>, k: string) returns (x: Item)
    requires k in ItemKeys(items)
    ensures x in items && x.key == k
  {
    var keys := ItemKeys(items);
    var i :| 0 <= i < |keys| && keys[i] == k;
    x := items[i];
  }

  lemma ModifiedSound(spec: RowSpec, A: seq<Dict>, B: seq<Dict>, keys: seq<string>, e: Event)
    requires AlignedAt(spec, A + B, e.anchor)
    requires keys == ItemKeys(DiffTables(ByKey(A, DiffKey(spec)), ByKey(B, DiffKey(spec))).modified)
    requires e in RowEvents(spec, Lookups(ByKey(KeyedRows(spec, B), DiffKey(spec)), keys), Modified)
    ensures Sound(spec, A, B, e)
  {
    hide FieldChanges;
    hide DiffTables;
    hide ByKey;
    hide KeyedRows;
    hide Lookups;
    hide RowEvents;
    hide Norm;
    var table := ByKey(KeyedRows(spec, B), DiffKey(spec));
    LookedUpMember(spec, B, keys, Modified, e);
    var k :| k in keys && k in table && e.value == Obj(table[k]) && AnchorOf(spec, table[k]) == Some(e.anchor);
    AlignedParts(spec, A, B, e.anchor);
    LookedUpRow(spec, B, k, e.anchor);
    ItemKeyChanged(ByKey(A, DiffKey(spec)), ByKey(B, DiffKey(spec)), k);
    CommonRow(spec, A, B, k, e.anchor);
    RowOutcome(e, table[k]);
  }

  lemma ReorderedSound(spec: RowSpec, A: seq<Dict>, B: seq<Dict>, keys: seq<string>, e: Event)
    requires AlignedAt(spec, A + B, e.anchor)
    requires e in RowEvents(spec, Lookups(ByKey(KeyedRows(spec, B), DiffKey(spec)), keys), Reordered)
    ensures Sound(spec, A, B, e)
  {
    hide ByKey;
    hide KeyedRows;
    hide Lookups;
    var table := ByKey(KeyedRows(spec, B), DiffKey(spec));
    LookedUpMember(spec, B, keys, Reordered, e);
    var k :| k in keys && k in table && e.value == Obj(table[k]) && AnchorOf(spec, table[k]) == Some(e.anchor);
    AlignedParts(spec, A, B, e.anchor);
    LookedUpRow(spec, B, k, e.anchor);
  }

  /** Events of a section are about its own kind, and each carries a row with that anchor: an
      old one when it is a removal, a new one otherwise. */
  lemma SectionEventRow(spec: RowSpec, A: seq<Dict>, B: seq<Dict>, ordered: bool, e: Event)
    requires e in SectionEvents(spec, A, B, ordered)
    ensures e.anchor.RowAnchor? && e.anchor.kind == spec.kind && e.value.Obj?
    ensures AnchorOf(spec, e.value.fields) == Some(e.anchor)
    ensures e.kind != Removed ==> e.value.fields in B
    ensures e.kind == Removed ==> e.value.fields in DiffTables(ByKey(A, DiffKey(spec)), ByKey(B, DiffKey(spec))).removed
  {
    hide DiffTables; hide ByKey; hide KeyedRows; hide Lookups; hide RowEvents; hide FieldChanges; hide Reorders;
    var key := DiffKey(spec);
    var d := DiffList(A, B, key, ordered);
    var table := ByKey(KeyedRows(spec, B), key);
    if e in RowEvents(spec, d.added, Added) {
      RowEventsMember(spec, d.added, Added, e);
      ByKeyFiled(B, key);
      AddedMember(ByKey(A, key), ByKey(B, key), key, e.value.fields);
      TableRow(B, key, key(e.value.fields));
    } else if e in RowEvents(spec, d.removed, Removed) {
      RowEventsMember(spec, d.removed, Removed, e);
    } else {
      var modified := e in RowEvents(spec, Lookups(table, ItemKeys(d.modified)), Modified);
      var keys, kind := if modified then ItemKeys(d.modified) else ReorderKeys(d.reordered),
          if modified then Modified else Reordered;
      LookedUpMember(spec, B, keys, kind, e);
      var k :| k in keys && k in table && e.value == Obj(table[k]) && AnchorOf(spec, table[k]) == Some(e.anchor);
      TableRow(KeyedRows(spec, B), key, k);
      KeyedRowsMember(spec, B, table[k]);
    }
  }

  /** A row of the old table with this anchor whose diff key the new snapshot lacks. */
  ghost predicate Dropped(spec: RowSpec, A: seq<Dict>, B: seq<Dict>, x: Anchor) {
    exists k ::
      && k in ByKey(A, DiffKey(spec)) && k !in ByKey(B, DiffKey(spec))
      && AnchorOf(spec, ByKey(A, DiffKey(spec))[k]) == Some(x)
  }

  /** Whatever the keys: an anchor that no row has any more is reported exactly when a row that had
      it lost its diff key too. */
  lemma VanishedReportedIff(spec: RowSpec, A: seq<Dict>, B: seq<Dict>, ordered: bool, x: Anchor)
    requires forall r | r in B :: AnchorOf(spec, r) != Some(x)
    ensures Mentions(SectionEvents(spec, A, B, ordered), x) <==> Dropped(spec, A, B, x)
    ensures forall e | e in SectionEvents(spec, A, B, ordered) && e.anchor == x :: e.kind == Removed
  {
    hide DiffTables; hide ByKey; hide SectionEvents;
    var key := DiffKey(spec);
    ByKeyFiled(A, key);
    forall e | e in SectionEvents(spec, A, B, ordered) && e.anchor == x
      ensures e.kind == Removed && Dropped(spec, A, B, x)
    {
      SectionEventRow(spec, A, B, ordered, e);
      RemovedMember(ByKey(A, key), ByKey(B, key), key, e.value.fields);
    }
    if Dropped(spec, A, B, x) {
      var k :| k in ByKey(A, key) && k !in ByKey(B, key) && AnchorOf(spec, ByKey(A, key)[k]) == Some(x);
      TableRow(A, key, k);
      RemovedReported(spec, A, B, ordered, ByKey(A, key)[k], x);
    }
  }

  lemma SectionEventSound(spec: RowSpec, A: seq<Dict>, B: seq<Dict>, ordered: bool, e: Event)
    requires AlignedAt(spec, A + B, e.anchor) && e in SectionEvents(spec, A, B, ordered)
    ensures Sound(spec, A, B, e)
  {
    var d := DiffList(A, B, DiffKey(spec), ordered);
    var table := ByKey(KeyedRows(spec, B), DiffKey(spec));
    if e in RowEvents(spec, d.added, Added) {
      AddedSound(spec, A, B, e);
    } else if e in RowEvents(spec, d.removed, Removed) {
      RemovedSound(spec, A, B, e);
    } else if e in RowEvents(spec, Lookups(table, ItemKeys(d.modified)), Modified) {
      ModifiedSound(spec, A, B, ItemKeys(d.modified), e);
    } else {
      ReorderedSound(spec, A, B, ReorderKeys(d.reordered), e);
    }
  }

  ghost predicate Reported(spec: RowSpec, A: seq<Dict>, B: seq<Dict>, ordered: bool, x: Anchor) {
    exists e :: e in SectionEvents(spec, A, B, ordered) && e.anchor == x && e.kind != Reordered
  }

  lemma AddedReported(spec: RowSpec, A: seq<Dict>, B: seq<Dict>, ordered: bool, r: Dict, x: Anchor)
    requires AnchorOf(spec, r) == Some(x)
    requires DiffKey(spec)(r) in ByKey(B, DiffKey(spec)) && ByKey(B, DiffKey(spec))[DiffKey(spec)(r)] == r
    requires DiffKey(spec)(r) !in ByKey(A, DiffKey(spec))
    ensures Reported(spec, A, B, ordered, x)
  {
    var key := DiffKey(spec);
    ByKeyFiled(B, key);
    AddedMember(ByKey(A, key), ByKey(B, key), key, r);
    var e := Event(x, Added, Obj(r));
    RowEventsMember(spec, DiffList(A, B, key, ordered).added, Added, e);
    assert e in SectionEvents(spec, A, B, ordered);
  }

  lemma RemovedReported(spec: RowSpec, A: seq<Dict>, B: seq<Dict>, ordered: bool, r: Dict, x: Anchor)
    requires AnchorOf(spec, r) == Some(x)
    requires DiffKey(spec)(r) in ByKey(A, DiffKey(spec)) && ByKey(A, DiffKey(spec))[DiffKey(spec)(r)] == r
    requires DiffKey(spec)(r) !in ByKey(B, DiffKey(spec))
    ensures Reported(spec, A, B, ordered, x)
  {
    var key := DiffKey(spec);
    ByKeyFiled(A, key);
    RemovedMember(ByKey(A, key), ByKey(B, key), key, r);
    var e := Event(x, Removed, Obj(r));
    RowEventsMember(spec, DiffList(A, B, key, ordered).removed, Removed, e);
    assert e in SectionEvents(spec, A, B, ordered);
  }

  lemma SameKeySameAnchor(spec: RowSpec, A: seq<Dict>, B: seq<Dict>, r: Dict, x: Anchor)
    requires AlignedAt(spec, A + B, x) && r in A && AnchorOf(spec, r) == Some(x)
    requires DiffKey(spec)(r) in ByKey(B, DiffKey(spec))
    ensures exists s :: s in B && AnchorOf(spec, s) == AnchorOf(spec, r)
  {
    var key := DiffKey(spec);
    TableRow(B, key, key(r));
    var s := ByKey(B, key)[key(r)];
    assert r in A + B && s in A + B;
  }

  /** A changed value at an anchor of the section has an event that says so. */
  lemma SectionChangeReported(spec: RowSpec, A: seq<Dict>, B: seq<Dict>, ordered: bool, x: Anchor)
    requires AlignedAt(spec, A + B, x)
    requires RowValue(A, spec, x) != RowValue(B, spec, x)
    ensures Reported(spec, A, B, ordered, x)
  {
    var key := DiffKey(spec);
    AlignedParts(spec, A, B, x);
    LastRowInTable(spec, A, x);
    LastRowInTable(spec, B, x);
    match LastRow(B, spec, x) {
      case Some(rb) =>
        if key(rb) !in ByKey(A, key) {
          AddedReported(spec, A, B, ordered, rb, x);
        } else {
          CommonRow(spec, A, B, key(rb), x);
          ModifiedReported(spec, A, B, ordered, key(rb), x);
        }
      case None =>
        var ra := LastRow(A, spec, x).value;
        assert key(ra) !in ByKey(B, key) by {
          if key(ra) in ByKey(B, key) { SameKeySameAnchor(spec, A, B, ra, x); }
        }
        RemovedReported(spec, A, B, ordered, ra, x);
    }
  }

  lemma ModifiedReported(spec: RowSpec, A: seq<Dict>, B: seq<Dict>, ordered: bool, k: string, x: Anchor)
    requires AlignedAt(spec, A + B, x)
    requires k in ByKey(A, DiffKey(spec)) && k in ByKey(B, DiffKey(spec))
    requires AnchorOf(spec, ByKey(B, DiffKey(spec))[k]) == Some(x)
    requires FieldChanges(ByKey(A, DiffKey(spec))[k], ByKey(B, DiffKey(spec))[k]) != []
    ensures exists e :: e in SectionEvents(spec, A, B, ordered) && e.anchor == x && e.kind == Modified
  {
    hide FieldChanges;
    hide ByKey;
    hide KeyedRows;
    hide Lookups;
    hide RowEvents;
    hide Reorders;
    var key := DiffKey(spec);
    var d := DiffList(A, B, key, ordered);
    var aBy, bBy, table := ByKey(A, key), ByKey(B, key), ByKey(KeyedRows(spec, B), key);
    var item := Item(k, FieldChanges(aBy[k], bBy[k]));
    ModifiedMember(aBy, bBy, item);
    var i :| 0 <= i < |d.modified| && d.modified[i] == item;
    assert ItemKeys(d.modified)[i] == k;
    AlignedParts(spec, A, B, x);
    TableRow(B, key, k);
    forall r | r in B && key(r) == k ensures Get(r, spec.diffField) != Null {
      assert AnchorOf(spec, r) == AnchorOf(spec, bBy[k]);
    }
    KeyedTableAt(spec, B, k);
    LookupsMember(table, ItemKeys(d.modified), table[k]);
    var e := Event(x, Modified, Obj(table[k]));
    RowEventsMember(spec, Lookups(table, ItemKeys(d.modified)), Modified, e);
    assert e in SectionEvents(spec, A, B, ordered);
  }
}
