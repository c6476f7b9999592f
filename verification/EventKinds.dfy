/** Which events one step writes, of which kind and with which value, read off the two snapshots. */
module EventKinds {
  import opened Basics
  import opened Json
  import opened Ordering
  import opened FieldDiff
  import opened ListDiff
  import opened Anchors
  import opened AnchorLog
  import opened RowReplay
  import opened SingleReplay
  import opened LogReplay

  // ---- the vocabulary: row lists and columns only ----

  /** The column of the row reads k. A missing value reads "None", as str(None) does. */
  ghost predicate Reads(row: Dict, column: string, k: string) {
    match Get(row, column)
    case Str(s) => k == s
    case Null => k == "None"
    case _ => k == ""
  }

  /** i is the last position whose column reads k. */
  ghost predicate LastReading(rows: seq<Dict>, column: string, k: string, i: int) {
    0 <= i < |rows| && Reads(rows[i], column, k) && forall j | i < j < |rows| :: !Reads(rows[j], column, k)
  }

  /** The same among the rows whose column is filled. */
  ghost predicate LastFilled(rows: seq<Dict>, column: string, k: string, i: int) {
    && 0 <= i < |rows| && Get(rows[i], column) != Null && Reads(rows[i], column, k)
    && forall j | i < j < |rows| :: Get(rows[j], column) == Null || !Reads(rows[j], column, k)
  }

  ghost predicate NoneReads(rows: seq<Dict>, column: string, k: string) {
    forall i | 0 <= i < |rows| :: !Reads(rows[i], column, k)
  }

  /** The value is a row of this kind whose id column gives the anchor. */
  ghost predicate CarriesRow(kind: string, column: string, e: Event) {
    && e.value.Obj?
    && match Get(e.value.fields, column)
       case Null => false
       case Str(s) => e.anchor == RowAnchor(kind, Safe(s))
       case _ => e.anchor == RowAnchor(kind, "")
  }

  /** The key is new: the event carries the last new row with it. */
  ghost predicate Appeared(A: seq<Dict>, B: seq<Dict>, column: string, value: Json) {
    exists k, j :: NoneReads(A, column, k) && LastReading(B, column, k, j) && value == Obj(B[j])
  }

  /** The last rows with the key differ: the event carries the last new row filed under it. */
  ghost predicate Changed(A: seq<Dict>, B: seq<Dict>, column: string, value: Json) {
    exists k, i, j, n ::
      && LastReading(A, column, k, i) && LastReading(B, column, k, j) && Norm(Obj(A[i])) != Norm(Obj(B[j]))
      && LastFilled(B, column, k, n) && value == Obj(B[n])
  }

  /** The last rows with the key sit at different positions. */
  ghost predicate Shifted(A: seq<Dict>, B: seq<Dict>, column: string, value: Json) {
    exists k, i, j, n ::
      && LastReading(A, column, k, i) && LastReading(B, column, k, j) && i != j
      && LastFilled(B, column, k, n) && value == Obj(B[n])
  }

  // ---- from the tables of the diff to the row lists ----

  lemma ReadsIsKey(spec: RowSpec, row: Dict, k: string)
    ensures Reads(row, spec.diffField, k) <==> DiffKey(spec)(row) == k
  {}

  lemma CarriesIsAnchor(spec: RowSpec, e: Event)
    ensures CarriesRow(spec.kind, spec.anchorField, e) <==>
            e.value.Obj? && AnchorOf(spec, e.value.fields) == Some(e.anchor)
  {}

  /** Both tables point at the last reading row. */
  lemma TablesPoint(spec: RowSpec, rows: seq<Dict>, k: string)
    ensures k in ByKey(rows, DiffKey(spec)) <==> !NoneReads(rows, spec.diffField, k)
    ensures k in IndexByKey(rows, DiffKey(spec)) <==> k in ByKey(rows, DiffKey(spec))
    ensures forall i :: LastReading(rows, spec.diffField, k, i) <==>
              k in IndexByKey(rows, DiffKey(spec)) && i == IndexByKey(rows, DiffKey(spec))[k]
    ensures k in ByKey(rows, DiffKey(spec)) ==>
      IndexByKey(rows, DiffKey(spec))[k] < |rows|
      && ByKey(rows, DiffKey(spec))[k] == rows[IndexByKey(rows, DiffKey(spec))[k]]
  {
    hide ByKey; hide IndexByKey; hide Reads;
    var key := DiffKey(spec);
    ByKeyIsLast(rows, key, k);
    forall row ensures Reads(row, spec.diffField, k) <==> key(row) == k { ReadsIsKey(spec, row, k); }
  }

  /** by_diff_key points at the last filled row. */
  lemma {:induction false} LookupPoints(spec: RowSpec, rows: seq<Dict>, k: string, r: Dict)
    ensures var table := ByKey(KeyedRows(spec, rows), DiffKey(spec));
      k in table && table[k] == r <==> exists n :: LastFilled(rows, spec.diffField, k, n) && rows[n] == r
  {
    hide ByKey; hide LastFilled; hide Reads; hide DiffKey; hide KeyedRows;
    if rows == [] {
      NothingFilled(spec, k);
    } else {
      var n := |rows| - 1;
      LookupPoints(spec, rows[..n], k, r);
      KeyedTableStep(spec, rows);
      LastFilledStep(rows, spec.diffField, k);
      ReadsIsKey(spec, rows[n], k);
      forall m | LastFilled(rows[..n], spec.diffField, k, m) ensures 0 <= m < n && rows[..n][m] == rows[m] {
        FilledInside(rows[..n], spec.diffField, k, m);
      }
    }
  }

  lemma FilledInside(rows: seq<Dict>, column: string, k: string, m: int)
    requires LastFilled(rows, column, k, m)
    ensures 0 <= m < |rows|
  {}

  lemma NothingFilled(spec: RowSpec, k: string)
    ensures k !in ByKey(KeyedRows(spec, []), DiffKey(spec)) && forall n :: !LastFilled([], spec.diffField, k, n)
  {}

  /** One more row is the last filled one exactly when it is filled and reads k. */
  lemma LastFilledStep(rows: seq<Dict>, column: string, k: string)
    requires rows != []
    ensures var n := |rows| - 1;
      if Get(rows[n], column) != Null && Reads(rows[n], column, k)
      then forall m :: LastFilled(rows, column, k, m) <==> m == n
      else forall m :: LastFilled(rows, column, k, m) <==> LastFilled(rows[..n], column, k, m)
  {
    hide Reads;
    if Get(rows[|rows| - 1], column) == Null || !Reads(rows[|rows| - 1], column, k) { LastFilledInit(rows, column, k); }
  }

  lemma LastFilledInit(rows: seq<Dict>, column: string, k: string)
    requires rows != [] && (Get(rows[|rows| - 1], column) == Null || !Reads(rows[|rows| - 1], column, k))
    ensures forall m :: LastFilled(rows, column, k, m) <==> LastFilled(rows[..|rows| - 1], column, k, m)
  {
    hide Reads;
    var n := |rows| - 1;
    forall m ensures LastFilled(rows, column, k, m) <==> LastFilled(rows[..n], column, k, m) {
      assert forall j | 0 <= j < n :: rows[j] == rows[..n][j];
    }
  }

  /** The four parts of a projected section. */
  lemma SectionParts(spec: RowSpec, A: seq<Dict>, B: seq<Dict>, ordered: bool, e: Event)
    ensures var d, table := DiffList(A, B, DiffKey(spec), ordered), ByKey(KeyedRows(spec, B), DiffKey(spec));
      e in SectionEvents(spec, A, B, ordered) <==>
        && e.value.Obj? && AnchorOf(spec, e.value.fields) == Some(e.anchor)
        && match e.kind
           case Added => e.value.fields in d.added
           case Removed => e.value.fields in d.removed
           case Modified => e.value.fields in Lookups(table, ItemKeys(d.modified))
           case Reordered => e.value.fields in Lookups(table, ReorderKeys(d.reordered))
  {
    hide DiffList; hide ByKey; hide KeyedRows; hide Lookups; hide RowEvents; hide AnchorOf;
    var d, table := DiffList(A, B, DiffKey(spec), ordered), ByKey(KeyedRows(spec, B), DiffKey(spec));
    RowEventsMember(spec, d.added, Added, e);
    RowEventsMember(spec, d.removed, Removed, e);
    RowEventsMember(spec, Lookups(table, ItemKeys(d.modified)), Modified, e);
    RowEventsMember(spec, Lookups(table, ReorderKeys(d.reordered)), Reordered, e);
  }

  /** The row filed under a key is the last row that reads it. */
  lemma FiledMeans(spec: RowSpec, rows: seq<Dict>, k: string, r: Dict)
    ensures k in ByKey(rows, DiffKey(spec)) && ByKey(rows, DiffKey(spec))[k] == r <==>
            exists i :: LastReading(rows, spec.diffField, k, i) && rows[i] == r
  {
    hide ByKey; hide IndexByKey; hide NoneReads; hide LastReading;
    TablesPoint(spec, rows, k);
    if k in ByKey(rows, DiffKey(spec)) {
      assert LastReading(rows, spec.diffField, k, IndexByKey(rows, DiffKey(spec))[k]);
    }
  }

  /** Rows filed on the one side under a key the other side lacks. */
  lemma AppearedMeans(spec: RowSpec, A: seq<Dict>, B: seq<Dict>, r: Dict)
    ensures var aBy, bBy := ByKey(A, DiffKey(spec)), ByKey(B, DiffKey(spec));
      DiffKey(spec)(r) in bBy && DiffKey(spec)(r) !in aBy && bBy[DiffKey(spec)(r)] == r <==>
      Appeared(A, B, spec.diffField, Obj(r))
  {
    hide ByKey; hide IndexByKey; hide NoneReads;
    var key := DiffKey(spec);
    TablesPoint(spec, A, key(r));
    FiledMeans(spec, B, key(r), r);
    if k, j :| NoneReads(A, spec.diffField, k) && LastReading(B, spec.diffField, k, j) && Obj(r) == Obj(B[j]) {
      ReadsIsKey(spec, r, k);
    }
  }

  lemma AddedMeans(spec: RowSpec, A: seq<Dict>, B: seq<Dict>, r: Dict)
    ensures r in DiffTables(ByKey(A, DiffKey(spec)), ByKey(B, DiffKey(spec))).added <==>
            Appeared(A, B, spec.diffField, Obj(r))
  {
    hide DiffTables; hide ByKey; hide Appeared;
    ByKeyFiled(B, DiffKey(spec));
    AddedMember(ByKey(A, DiffKey(spec)), ByKey(B, DiffKey(spec)), DiffKey(spec), r);
    AppearedMeans(spec, A, B, r);
  }

  lemma RemovedMeans(spec: RowSpec, A: seq<Dict>, B: seq<Dict>, r: Dict)
    ensures r in DiffTables(ByKey(A, DiffKey(spec)), ByKey(B, DiffKey(spec))).removed <==>
            Appeared(B, A, spec.diffField, Obj(r))
  {
    hide DiffTables; hide ByKey; hide Appeared;
    ByKeyFiled(A, DiffKey(spec));
    RemovedMember(ByKey(A, DiffKey(spec)), ByKey(B, DiffKey(spec)), DiffKey(spec), r);
    AppearedMeans(spec, B, A, r);
  }

  /** The keys of the modified items are those whose last rows differ. */
  lemma ItemKeyMeans(spec: RowSpec, A: seq<Dict>, B: seq<Dict>, k: string)
    ensures k in ItemKeys(DiffTables(ByKey(A, DiffKey(spec)), ByKey(B, DiffKey(spec))).modified) <==>
            exists i, j :: && LastReading(A, spec.diffField, k, i) && LastReading(B, spec.diffField, k, j)
                           && Norm(Obj(A[i])) != Norm(Obj(B[j]))
  {
    hide DiffTables; hide ByKey; hide IndexByKey; hide Norm; hide FieldChanges; hide NoneReads; hide LastReading;
    var aBy, bBy := ByKey(A, DiffKey(spec)), ByKey(B, DiffKey(spec));
    var items := DiffTables(aBy, bBy).modified;
    TablesPoint(spec, A, k);
    TablesPoint(spec, B, k);
    if k in aBy && k in bBy {
      EmptyDiffIffAgree(aBy[k], bBy[k]);
      ModifiedMember(aBy, bBy, Item(k, FieldChanges(aBy[k], bBy[k])));
      if FieldChanges(aBy[k], bBy[k]) != [] {
        var n :| 0 <= n < |items| && items[n] == Item(k, FieldChanges(aBy[k], bBy[k]));
        assert ItemKeys(items)[n] == k;
      }
    }
    if k in ItemKeys(items) { ItemKeyChanged(aBy, bBy, k); }
  }

  /** The keys of the reorders are those whose last rows sit at different positions. */
  lemma ReorderKeyMeans(spec: RowSpec, A: seq<Dict>, B: seq<Dict>, k: string)
    ensures k in ReorderKeys(DiffList(A, B, DiffKey(spec), true).reordered) <==>
            exists i, j :: LastReading(A, spec.diffField, k, i) && LastReading(B, spec.diffField, k, j) && i != j
  {
    hide DiffList; hide ByKey; hide IndexByKey; hide NoneReads; hide LastReading;
    var key := DiffKey(spec);
    var rs, aIndex, bIndex := DiffList(A, B, key, true).reordered, IndexByKey(A, key), IndexByKey(B, key);
    TablesPoint(spec, A, k);
    TablesPoint(spec, B, k);
    if k in ReorderKeys(rs) {
      var n :| 0 <= n < |rs| && rs[n].key == k;
      ReorderedMember(A, B, key, rs[n]);
      assert LastReading(A, spec.diffField, k, aIndex[k]) && LastReading(B, spec.diffField, k, bIndex[k]);
    }
    if k in aIndex && k in bIndex && aIndex[k] != bIndex[k] {
      var r := Reorder(k, aIndex[k], bIndex[k]);
      ReorderedMember(A, B, key, r);
      var n :| 0 <= n < |rs| && rs[n] == r;
      assert ReorderKeys(rs)[n] == k;
    }
  }

  lemma LookupMeans(spec: RowSpec, B: seq<Dict>, keys: seq<string>, r: Dict)
    ensures r in Lookups(ByKey(KeyedRows(spec, B), DiffKey(spec)), keys) <==>
            exists k, n :: k in keys && LastFilled(B, spec.diffField, k, n) && r == B[n]
  {
    hide ByKey; hide KeyedRows; hide Lookups; hide Reads;
    var table := ByKey(KeyedRows(spec, B), DiffKey(spec));
    LookupsMember(table, keys, r);
    if k :| k in keys && k in table && table[k] == r { LookupPoints(spec, B, k, r); }
    if k, n :| k in keys && LastFilled(B, spec.diffField, k, n) && r == B[n] { LookupPoints(spec, B, k, r); }
  }

  // ---- row events ----

  /** What an event about a row of the section means, kind by kind. */
  ghost predicate RowEventMeans(spec: RowSpec, A: seq<Dict>, B: seq<Dict>, e: Event) {
    && CarriesRow(spec.kind, spec.anchorField, e)
    && match e.kind
       case Added => Appeared(A, B, spec.diffField, e.value)
       case Removed => Appeared(B, A, spec.diffField, e.value)
       case Modified => Changed(A, B, spec.diffField, e.value)
       case Reordered =>
         (spec.section == "firewall_rules" || spec.section == "nat_rules") && Shifted(A, B, spec.diffField, e.value)
  }

  lemma ModifiedMeans(spec: RowSpec, A: seq<Dict>, B: seq<Dict>, r: Dict)
    ensures var items := DiffTables(ByKey(A, DiffKey(spec)), ByKey(B, DiffKey(spec))).modified;
      r in Lookups(ByKey(KeyedRows(spec, B), DiffKey(spec)), ItemKeys(items)) <==>
      Changed(A, B, spec.diffField, Obj(r))
  {
    hide DiffTables; hide ByKey; hide KeyedRows; hide Lookups; hide Norm; hide Reads; hide ItemKeys;
    var keys := ItemKeys(DiffTables(ByKey(A, DiffKey(spec)), ByKey(B, DiffKey(spec))).modified);
    LookupMeans(spec, B, keys, r);
    if k, n :| k in keys && LastFilled(B, spec.diffField, k, n) && r == B[n] { ItemKeyMeans(spec, A, B, k); }
    if k, i, j, n :| && LastReading(A, spec.diffField, k, i) && LastReading(B, spec.diffField, k, j)
                     && Norm(Obj(A[i])) != Norm(Obj(B[j])) && LastFilled(B, spec.diffField, k, n) && Obj(r) == Obj(B[n])
    {
      ItemKeyMeans(spec, A, B, k);
    }
  }

  lemma ReorderedMeans(spec: RowSpec, A: seq<Dict>, B: seq<Dict>, r: Dict)
    ensures r in Lookups(ByKey(KeyedRows(spec, B), DiffKey(spec)),
                         ReorderKeys(DiffList(A, B, DiffKey(spec), true).reordered)) <==>
            Shifted(A, B, spec.diffField, Obj(r))
  {
    hide DiffList; hide ByKey; hide KeyedRows; hide Lookups; hide Reads; hide ReorderKeys;
    var keys := ReorderKeys(DiffList(A, B, DiffKey(spec), true).reordered);
    LookupMeans(spec, B, keys, r);
    if k, n :| k in keys && LastFilled(B, spec.diffField, k, n) && r == B[n] { ReorderKeyMeans(spec, A, B, k); }
    if k, i, j, n :| && LastReading(A, spec.diffField, k, i) && LastReading(B, spec.diffField, k, j) && i != j
                     && LastFilled(B, spec.diffField, k, n) && Obj(r) == Obj(B[n])
    {
      ReorderKeyMeans(spec, A, B, k);
    }
  }

  lemma StepRowsMeans(a: Config, b: Config, spec: RowSpec, e: Event)
    ensures e in StepRows(a, b, spec) <==> RowEventMeans(spec, RowsOf(a, spec.section), RowsOf(b, spec.section), e)
  {
    hide DiffTables; hide ByKey; hide KeyedRows; hide Lookups; hide RowEvents; hide ItemKeys;
    hide Appeared; hide Changed; hide Shifted; hide AnchorOf; hide CarriesRow; hide Reorders; hide IndexByKey;
    var A, B := RowsOf(a, spec.section), RowsOf(b, spec.section);
    SectionParts(spec, A, B, OrderSensitive(spec.section), e);
    CarriesIsAnchor(spec, e);
    if e.value.Obj? {
      var r := e.value.fields;
      AddedMeans(spec, A, B, r);
      RemovedMeans(spec, A, B, r);
      ModifiedMeans(spec, A, B, r);
      ReorderedMeans(spec, A, B, r);
      LookupMeans(spec, B, [], r);
    }
  }

  /** A step writes an event about a row exactly when the two row lists of the section say so. */
  lemma RowEventIff(a: Config, b: Config, spec: RowSpec, e: Event)
    requires spec in ROW_SPECS && e.anchor.RowAnchor? && e.anchor.kind == spec.kind
    ensures e in Project(a, b) <==> RowEventMeans(spec, RowsOf(a, spec.section), RowsOf(b, spec.section), e)
  {
    hide Project; hide StepRows; hide StepSingle; hide RowEventMeans;
    StepRowsMeans(a, b, spec, e);
    SpecByKind(spec);
    if e in Project(a, b) { RowEventOrigin(a, b, e); }
    if e in StepRows(a, b, spec) { ProjectMember(a, b, e); }
  }

  /** The event carries a row of the section that sits elsewhere than before. */
  ghost predicate MovedRow(a: Config, b: Config, section: string, kind: string, e: Event) {
    CarriesRow(kind, "key", e) && Shifted(RowsOf(a, section), RowsOf(b, section), "key", e.value)
  }

  /** A moved row is reported exactly in the two sections whose order matters, by the key of the row. */
  lemma ReorderedIff(a: Config, b: Config, e: Event)
    requires e.kind == Reordered
    ensures e in Project(a, b) <==> MovedRow(a, b, "firewall_rules", "rule", e) || MovedRow(a, b, "nat_rules", "nat", e)
  {
    hide Project; hide StepRows; hide StepSingle; hide Shifted;
    var rules, nats := ROW_SPECS[0], ROW_SPECS[1];
    if e in Project(a, b) {
      ProjectMember(a, b, e);
      if spec :| spec in ROW_SPECS && e in StepRows(a, b, spec) {
        StepRowsMeans(a, b, spec, e);
        SensitiveSpec(spec);
      } else {
        var s :| s in SINGLETONS && e in StepSingle(a, b, s);
        StepSingleMeans(a, b, s, e);
      }
    }
    if MovedRow(a, b, "firewall_rules", "rule", e) { RowEventIff(a, b, rules, e); }
    if MovedRow(a, b, "nat_rules", "nat", e) { RowEventIff(a, b, nats, e); }
  }

  lemma SensitiveSpec(spec: RowSpec)
    requires spec in ROW_SPECS && (spec.section == "firewall_rules" || spec.section == "nat_rules")
    ensures spec == RowSpec(spec.section, if spec.section == "nat_rules" then "nat" else "rule", "key", "key")
  {}

  // ---- row events where anchor and diff key tell rows apart alike ----

  /** What the two snapshots show at the anchor of an event, by its kind. */
  lemma RowKindMeans(a: Config, b: Config, e: Event)
    requires e in Project(a, b) && e.anchor.RowAnchor? && RowGood(a, b, e.anchor)
    ensures e.kind == Added ==> ValueAt(a, e.anchor) == None && ValueAt(b, e.anchor) == Some(Norm(e.value))
    ensures e.kind == Removed ==> ValueAt(a, e.anchor) == Some(Norm(e.value)) && ValueAt(b, e.anchor) == None
    ensures e.kind == Modified ==>
      && ValueAt(a, e.anchor).Some? && ValueAt(b, e.anchor) == Some(Norm(e.value))
      && ValueAt(a, e.anchor) != ValueAt(b, e.anchor)
    ensures e.kind == Reordered ==> ValueAt(b, e.anchor) == Some(Norm(e.value))
  {
    hide Project; hide StepSingle; hide DiffTables; hide ByKey; hide KeyedRows; hide Lookups; hide RowEvents;
    hide Norm; hide AlignedAt; hide RowValue; hide Reorders; hide FieldChanges;
    RowEventOrigin(a, b, e);
    var spec :| FindSpec(ROW_SPECS, e.anchor.kind) == Some(spec) && spec in ROW_SPECS && e in StepRows(a, b, spec);
    var A, B := RowsOf(a, spec.section), RowsOf(b, spec.section);
    SectionParts(spec, A, B, OrderSensitive(spec.section), e);
    SectionEventSound(spec, A, B, OrderSensitive(spec.section), e);
    match e.kind {
      case Added => AddedRow(spec, A, B, e.value.fields, e.anchor);
      case Removed => RemovedRow(spec, A, B, e.value.fields, e.anchor);
      case Modified => ModifiedWasThere(spec, A, B, e);
      case Reordered => RowOutcome(e, e.value.fields);
    }
  }

  lemma ModifiedWasThere(spec: RowSpec, A: seq<Dict>, B: seq<Dict>, e: Event)
    requires AlignedAt(spec, A + B, e.anchor) && e.value.Obj? && AnchorOf(spec, e.value.fields) == Some(e.anchor)
    requires e.kind == Modified
    requires var items := DiffTables(ByKey(A, DiffKey(spec)), ByKey(B, DiffKey(spec))).modified;
      e.value.fields in Lookups(ByKey(KeyedRows(spec, B), DiffKey(spec)), ItemKeys(items))
    ensures RowValue(A, spec, e.anchor).Some? && RowValue(B, spec, e.anchor) == Some(Norm(e.value))
  {
    hide DiffTables; hide ByKey; hide KeyedRows; hide Lookups; hide Norm; hide FieldChanges; hide RowValue;
    var table, keys := ByKey(KeyedRows(spec, B), DiffKey(spec)),
        ItemKeys(DiffTables(ByKey(A, DiffKey(spec)), ByKey(B, DiffKey(spec))).modified);
    LookupsMember(table, keys, e.value.fields);
    var k :| k in keys && k in table && table[k] == e.value.fields;
    AlignedParts(spec, A, B, e.anchor);
    LookedUpRow(spec, B, k, e.anchor);
    ItemKeyChanged(ByKey(A, DiffKey(spec)), ByKey(B, DiffKey(spec)), k);
    CommonRow(spec, A, B, k, e.anchor);
  }

  ghost predicate Says(es: seq<Event>, x: Anchor, kind: Kind) {
    exists e :: e in es && e.anchor == x && e.kind == kind
  }

  /** Added, removed and modified mean what they say: nothing before, nothing after, two different values. */
  lemma RowKindIff(a: Config, b: Config, x: Anchor)
    requires x.RowAnchor? && RowGood(a, b, x)
    ensures Says(Project(a, b), x, Added) <==> ValueAt(a, x) == None && ValueAt(b, x) != None
    ensures Says(Project(a, b), x, Removed) <==> ValueAt(a, x) != None && ValueAt(b, x) == None
    ensures Says(Project(a, b), x, Modified) <==>
            ValueAt(a, x) != None && ValueAt(b, x) != None && ValueAt(a, x) != ValueAt(b, x)
  {
    hide Project; hide ValueAt; hide RowGood;
    forall e | e in Project(a, b) && e.anchor == x
      ensures e.kind == Added ==> ValueAt(a, x) == None && ValueAt(b, x) != None
      ensures e.kind == Removed ==> ValueAt(a, x) != None && ValueAt(b, x) == None
      ensures e.kind == Modified ==> ValueAt(a, x) != None && ValueAt(b, x) != None && ValueAt(a, x) != ValueAt(b, x)
    {
      RowKindMeans(a, b, e);
    }
    if ValueAt(a, x) != ValueAt(b, x) {
      RowChangeReported(a, b, x);
      var e :| e in Project(a, b) && e.anchor == x && e.kind != Reordered;
      assert Says(Project(a, b), x, e.kind);
    }
  }

  // ---- singleton fields ----

  /** What an event about a singleton field means, kind by kind. */
  ghost predicate FieldEventMeans(a: Config, b: Config, s: string, f: string, kind: Kind, value: Json) {
    if s in a.singles && s in b.singles then
      var av, bv := Get(a.singles[s], f), Get(b.singles[s], f);
      match kind
      case Added => av == Null && bv != Null && value == bv
      case Removed => av != Null && bv == Null && value == av
      case Modified => av != Null && bv != Null && av != bv && !(av.Obj? && bv.Obj?) && value == bv
      case Reordered => false
    else if s in b.singles then kind == Added && f in b.singles[s] && value == b.singles[s][f]
    else if s in a.singles then kind == Removed && f in a.singles[s] && value == a.singles[s][f]
    else false
  }

  lemma WholeMeans(s: string, whole: Dict, kind: Kind, e: Event)
    ensures e in WholeEvents(s, whole, SortedKeys(whole.Keys), kind) <==>
            exists f :: f in whole && '.' !in f && e == Event(FieldAnchorOf(s, f), kind, whole[f])
  {
    hide SortedKeys; hide WholeEvents; hide FieldAnchorOf;
    KeysIn(whole.Keys);
    WholeEventsMember(s, whole, SortedKeys(whole.Keys), kind, e);
    if f :| f in whole && '.' !in f && e == Event(FieldAnchorOf(s, f), kind, whole[f]) {
      assert f in SortedKeys(whole.Keys) && Get(whole, f) == whole[f];
    }
  }

  ghost predicate FieldEventFor(a: Config, b: Config, s: string, f: string, e: Event) {
    '.' !in f && e.anchor == FieldAnchorOf(s, f) && FieldEventMeans(a, b, s, f, e.kind, e.value)
  }

  lemma ChangesMeans(a: Config, b: Config, s: string, e: Event)
    requires s in a.singles && s in b.singles
    ensures e in ChangeEvents(s, FieldChanges(a.singles[s], b.singles[s])) <==> exists f :: FieldEventFor(a, b, s, f, e)
  {
    hide FieldChanges; hide ChangeEvents; hide FieldAnchorOf;
    var x, y := a.singles[s], b.singles[s];
    var cs := FieldChanges(x, y);
    ChangeEventsMember(s, cs, e);
    if c :| c in cs && e in ChangeEvent(s, c) {
      FieldChangesMember(x, y, c);
      assert FieldEventFor(a, b, s, c.path[0], e);
    }
    if f :| FieldEventFor(a, b, s, f, e) {
      var c := Change([f], Get(x, f), Get(y, f));
      FieldChangesMember(x, y, c);
      assert e in ChangeEvent(s, c);
    }
  }

  lemma StepSingleMeans(a: Config, b: Config, s: string, e: Event)
    ensures e in StepSingle(a, b, s) <==> exists f :: FieldEventFor(a, b, s, f, e)
  {
    hide FieldChanges; hide ChangeEvents; hide FieldAnchorOf; hide WholeEvents; hide SortedKeys;
    if s in a.singles && s in b.singles {
      ChangesMeans(a, b, s, e);
      NoChanges(s);
    } else if s in b.singles {
      WholeMeans(s, b.singles[s], Added, e);
      if f :| f in b.singles[s] && '.' !in f && e == Event(FieldAnchorOf(s, f), Added, b.singles[s][f]) {
        assert FieldEventFor(a, b, s, f, e);
      }
    } else if s in a.singles {
      WholeMeans(s, a.singles[s], Removed, e);
      if f :| f in a.singles[s] && '.' !in f && e == Event(FieldAnchorOf(s, f), Removed, a.singles[s][f]) {
        assert FieldEventFor(a, b, s, f, e);
      }
    }
  }

  lemma NoChanges(s: string)
    ensures ChangeEvents(s, []) == []
  {}

  /** A step writes an event about a singleton field exactly when the two models say so. */
  lemma FieldEventIff(a: Config, b: Config, e: Event)
    requires e.anchor.FieldAnchor?
    ensures e in Project(a, b) <==> exists s, f :: s in SINGLETONS && FieldEventFor(a, b, s, f, e)
  {
    hide Project; hide StepRows; hide StepSingle; hide FieldEventFor;
    ProjectMember(a, b, e);
    if e in Project(a, b) {
      if spec :| spec in ROW_SPECS && e in StepRows(a, b, spec) {
        StepRowsKind(a, b, spec, e);
      } else {
        var s :| s in SINGLETONS && e in StepSingle(a, b, s);
        StepSingleMeans(a, b, s, e);
      }
    }
    if s, f :| s in SINGLETONS && FieldEventFor(a, b, s, f, e) { StepSingleMeans(a, b, s, e); }
  }

  // ---- the seed ----

  /** The event carries a row of the snapshot that has an anchor. */
  ghost predicate SeedsRow(cfg: Config, e: Event) {
    exists spec ::
      spec in ROW_SPECS && CarriesRow(spec.kind, spec.anchorField, e) && e.value.fields in RowsOf(cfg, spec.section)
  }

  /** The event carries a field of a section of the snapshot. */
  ghost predicate SeedsField(cfg: Config, e: Event) {
    exists s, f ::
      && s in SINGLETONS && s in cfg.singles && f in cfg.singles[s] && '.' !in f
      && e.anchor == FieldAnchorOf(s, f) && e.value == cfg.singles[s][f]
  }

  lemma SeedRowsMember(cfg: Config, e: Event)
    ensures e in Flatten(SeedRows(cfg, ROW_SPECS)) <==>
            e.kind == Added && SeedsRow(cfg, e)
  {
    hide CarriesRow; hide AnchorOf; hide RowsOf; hide RowEvents; hide Flatten;
    var parts := SeedRows(cfg, ROW_SPECS);
    FlattenMember(parts, e);
    forall i | 0 <= i < |ROW_SPECS| ensures
      e in parts[i] <==> && e.kind == Added && CarriesRow(ROW_SPECS[i].kind, ROW_SPECS[i].anchorField, e)
                         && e.value.Obj? && e.value.fields in RowsOf(cfg, ROW_SPECS[i].section)
    {
      RowEventsMember(ROW_SPECS[i], RowsOf(cfg, ROW_SPECS[i].section), Added, e);
      CarriesIsAnchor(ROW_SPECS[i], e);
    }
    forall spec: RowSpec ensures CarriesRow(spec.kind, spec.anchorField, e) ==> e.value.Obj? {
      CarriesIsAnchor(spec, e);
    }
  }

  lemma SeedSinglesMember(cfg: Config, e: Event)
    ensures e in Flatten(SeedSingles(cfg, SINGLETONS)) <==>
            e.kind == Added && SeedsField(cfg, e)
  {
    hide FieldAnchorOf; hide WholeEvents; hide Flatten;
    var parts := SeedSingles(cfg, SINGLETONS);
    FlattenMember(parts, e);
    forall i | 0 <= i < |SINGLETONS| && SINGLETONS[i] in cfg.singles ensures
      e in parts[i] <==> exists f ::
        && f in cfg.singles[SINGLETONS[i]] && '.' !in f
        && e == Event(FieldAnchorOf(SINGLETONS[i], f), Added, cfg.singles[SINGLETONS[i]][f])
    {
      WholeMeans(SINGLETONS[i], cfg.singles[SINGLETONS[i]], Added, e);
    }
    if s, f :| && s in SINGLETONS && s in cfg.singles && f in cfg.singles[s] && '.' !in f && e.kind == Added
               && e.anchor == FieldAnchorOf(s, f) && e.value == cfg.singles[s][f]
    {
      var i :| 0 <= i < |SINGLETONS| && SINGLETONS[i] == s;
      assert e == Event(FieldAnchorOf(SINGLETONS[i], f), Added, cfg.singles[SINGLETONS[i]][f]);
    }
  }

  /** The seed of a snapshot: one added event per row that has an anchor and per field of a section. */
  lemma SeedMeans(cfg: Config, e: Event)
    ensures e in Seed(cfg) <==> e.kind == Added && (SeedsRow(cfg, e) || SeedsField(cfg, e))
  {
    hide SeedsRow; hide SeedsField; hide SeedRows; hide SeedSingles; hide Flatten;
    SeedRowsMember(cfg, e);
    SeedSinglesMember(cfg, e);
  }
}
