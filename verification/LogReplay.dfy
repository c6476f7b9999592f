/** The whole log: one step, the seed, and every chain of snapshots. */
module LogReplay {
  import opened Basics
  import opened Json
  import opened Ordering
  import opened FieldDiff
  import opened ListDiff
  import opened Anchors
  import opened AnchorLog
  import opened RowReplay
  import opened SingleReplay

  /** In every row section, diff key and anchor id tell the rows of both snapshots apart alike. */
  ghost predicate AlignedStep(a: Config, b: Config) {
    forall spec | spec in ROW_SPECS :: Aligned(spec, RowsOf(a, spec.section) + RowsOf(b, spec.section))
  }

  /** No singleton field changes inside a nested model. */
  ghost predicate FlatStep(a: Config, b: Config) {
    forall s, f | s in SINGLETONS && LegalField(s, f) :: !NestedChange(a, b, s, f)
  }

  lemma RowStepsMember(a: Config, b: Config, specs: seq<RowSpec>, e: Event)
    ensures e in Flatten(RowSteps(a, b, specs)) <==> exists spec :: spec in specs && e in StepRows(a, b, spec)
  {
    hide StepRows;
    var parts := RowSteps(a, b, specs);
    FlattenMember(parts, e);
    if spec :| spec in specs && e in StepRows(a, b, spec) {
      var i :| 0 <= i < |specs| && specs[i] == spec;
      assert e in parts[i];
    }
  }

  lemma SingleStepsMember(a: Config, b: Config, sections: seq<string>, e: Event)
    ensures e in Flatten(SingleSteps(a, b, sections)) <==> exists s :: s in sections && e in StepSingle(a, b, s)
  {
    hide StepSingle;
    var parts := SingleSteps(a, b, sections);
    FlattenMember(parts, e);
    if s :| s in sections && e in StepSingle(a, b, s) {
      var i :| 0 <= i < |sections| && sections[i] == s;
      assert e in parts[i];
    }
  }

  /** A projected event comes from one row section or one singleton section. */
  lemma ProjectMember(a: Config, b: Config, e: Event)
    ensures e in Project(a, b) <==>
            || (exists spec :: spec in ROW_SPECS && e in StepRows(a, b, spec))
            || (exists s :: s in SINGLETONS && e in StepSingle(a, b, s))
  {
    hide StepRows;
    hide StepSingle;
    RowStepsMember(a, b, ROW_SPECS, e);
    SingleStepsMember(a, b, SINGLETONS, e);
  }

  lemma SpecByKind(spec: RowSpec)
    requires spec in ROW_SPECS
    ensures FindSpec(ROW_SPECS, spec.kind) == Some(spec)
  {
    var i :| 0 <= i < |ROW_SPECS| && ROW_SPECS[i] == spec;
    SpecFound(i);
  }

  lemma {:induction false} FoundSpec(specs: seq<RowSpec>, kind: string)
    ensures FindSpec(specs, kind).Some? ==>
      FindSpec(specs, kind).value in specs && FindSpec(specs, kind).value.kind == kind
  {
    if specs != [] { FoundSpec(specs[1..], kind); }
  }

  // ---- one step at one anchor ----

  /** What a step needs to be right at one anchor: the rows with a row anchor are told apart by
      their diff key, and a field does not change inside a nested model. Nothing is asked of other
      sections, other rows or other fields. */
  ghost predicate GoodAt(a: Config, b: Config, x: Anchor) {
    if x.RowAnchor? then RowGood(a, b, x) else !FieldNested(a, b, x)
  }

  ghost predicate RowGood(a: Config, b: Config, x: Anchor)
    requires x.RowAnchor?
  {
    match FindSpec(ROW_SPECS, x.kind)
    case None => true
    case Some(spec) => AlignedAt(spec, RowsOf(a, spec.section) + RowsOf(b, spec.section), x)
  }

  ghost predicate FieldNested(a: Config, b: Config, x: Anchor)
    requires x.FieldAnchor?
  {
    var (s, f) := Unscope(x.scope, x.tag);
    Names(x, s, f) && NestedChange(a, b, s, f)
  }

  /** The field an anchor of the singleton sections names, when it names a legal one. */
  ghost predicate Names(x: Anchor, s: string, f: string) {
    s in SINGLETONS && LegalField(s, f) && x == FieldAnchorOf(s, f)
  }

  /** Events about a row anchor come from the one section of its kind. */
  lemma RowEventOrigin(a: Config, b: Config, e: Event)
    requires e in Project(a, b) && e.anchor.RowAnchor?
    ensures exists spec ::
      FindSpec(ROW_SPECS, e.anchor.kind) == Some(spec) && spec in ROW_SPECS && e in StepRows(a, b, spec)
  {
    hide StepRows; hide StepSingle; hide Project;
    ProjectMember(a, b, e);
    if spec :| spec in ROW_SPECS && e in StepRows(a, b, spec) {
      StepRowsKind(a, b, spec, e);
      SpecByKind(spec);
    } else {
      var s :| s in SINGLETONS && e in StepSingle(a, b, s);
      StepSingleKind(a, b, s, e);
    }
  }

  /** Events of a row section carry the kind of that section, aligned or not. */
  lemma StepRowsKind(a: Config, b: Config, spec: RowSpec, e: Event)
    requires e in StepRows(a, b, spec)
    ensures e.anchor.RowAnchor? && e.anchor.kind == spec.kind
  {
    SectionEventRow(spec, RowsOf(a, spec.section), RowsOf(b, spec.section), OrderSensitive(spec.section), e);
  }

  lemma StepSingleKind(a: Config, b: Config, section: string, e: Event)
    requires e in StepSingle(a, b, section)
    ensures e.anchor.FieldAnchor?
  {
    hide FieldChanges;
    var d := DiffSingle(a, b, section);
    if section !in a.singles && section in b.singles {
      WholeEventsMember(section, b.singles[section], SortedKeys(b.singles[section].Keys), Added, e);
    } else if section in a.singles && section !in b.singles {
      WholeEventsMember(section, a.singles[section], SortedKeys(a.singles[section].Keys), Removed, e);
    } else if section in a.singles {
      var cs := FieldChanges(a.singles[section], b.singles[section]);
      ChangeEventsMember(section, cs, e);
    }
  }

  /** An event about a row anchor says what the new snapshot shows there and, unless it is a
      reorder, marks a change. */
  lemma RowEventOutcome(a: Config, b: Config, e: Event)
    requires e in Project(a, b) && e.anchor.RowAnchor? && RowGood(a, b, e.anchor)
    ensures Outcome(e) == ValueAt(b, e.anchor)
    ensures e.kind != Reordered ==> ValueAt(a, e.anchor) != ValueAt(b, e.anchor)
  {
    hide Project; hide StepSingle;
    RowEventOrigin(a, b, e);
    var spec :| FindSpec(ROW_SPECS, e.anchor.kind) == Some(spec) && spec in ROW_SPECS && e in StepRows(a, b, spec);
    SectionEventSound(spec, RowsOf(a, spec.section), RowsOf(b, spec.section), OrderSensitive(spec.section), e);
  }

  /** An event about a field says what the new snapshot shows there, and the field did not change
      inside a nested model. */
  lemma FieldEventOutcome(a: Config, b: Config, e: Event)
    requires Legal(a) && Legal(b) && e in Project(a, b) && e.anchor.FieldAnchor?
    ensures Outcome(e) == ValueAt(b, e.anchor) && !FieldNested(a, b, e.anchor)
  {
    hide Project; hide StepRows; hide StepSingle;
    ProjectMember(a, b, e);
    if spec :| spec in ROW_SPECS && e in StepRows(a, b, spec) {
      StepRowsKind(a, b, spec, e);
    } else {
      var s :| s in SINGLETONS && e in StepSingle(a, b, s);
      SingleStepSound(a, b, s, e);
      var f :| FieldSound(a, b, s, e, f);
      FieldAnchorValue(b, s, f);
      AliasesInverse(s, f);
    }
  }

  lemma SingleStepSound(a: Config, b: Config, s: string, e: Event)
    requires s in SINGLETONS && Legal(a) && Legal(b) && e in StepSingle(a, b, s)
    ensures exists f :: FieldSound(a, b, s, e, f)
  {
    SingleEventSound(a, b, s, e);
  }

  /** A changed row anchor is reported. */
  lemma RowChangeReported(a: Config, b: Config, x: Anchor)
    requires x.RowAnchor? && RowGood(a, b, x) && ValueAt(a, x) != ValueAt(b, x)
    ensures exists e :: e in Project(a, b) && e.anchor == x && e.kind != Reordered
  {
    hide Project;
    FoundSpec(ROW_SPECS, x.kind);
    var spec := FindSpec(ROW_SPECS, x.kind).value;
    SectionChangeReported(spec, RowsOf(a, spec.section), RowsOf(b, spec.section), OrderSensitive(spec.section), x);
    var e :| e in StepRows(a, b, spec) && e.anchor == x && e.kind != Reordered;
    ProjectMember(a, b, e);
  }

  /** A row anchor gets an added, removed or modified event exactly when its value changed. */
  lemma RowEventIffChanged(a: Config, b: Config, x: Anchor)
    requires x.RowAnchor? && RowGood(a, b, x)
    ensures (exists e :: e in Project(a, b) && e.anchor == x && e.kind != Reordered) <==> ValueAt(a, x) != ValueAt(b, x)
  {
    hide Project; hide ValueAt; hide RowGood;
    if e :| e in Project(a, b) && e.anchor == x && e.kind != Reordered { RowEventOutcome(a, b, e); }
    if ValueAt(a, x) != ValueAt(b, x) { RowChangeReported(a, b, x); }
  }

  lemma FieldDiffers(a: Config, b: Config, x: Anchor)
    requires Legal(a) && Legal(b) && x.FieldAnchor? && ValueAt(a, x) != ValueAt(b, x)
    ensures var (s, f) := Unscope(x.scope, x.tag);
      Names(x, s, f) && FieldValue(a, s, f) == ValueAt(a, x) && FieldValue(b, s, f) == ValueAt(b, x)
  {
    var (s, f) := Unscope(x.scope, x.tag);
    assert (s in a.singles && f in a.singles[s]) || (s in b.singles && f in b.singles[s]);
    assert LegalField(s, f);
    FieldAnchorValue(a, s, f);
    FieldAnchorValue(b, s, f);
  }

  lemma FieldChangeReported(a: Config, b: Config, x: Anchor)
    requires Legal(a) && Legal(b) && x.FieldAnchor? && !FieldNested(a, b, x) && ValueAt(a, x) != ValueAt(b, x)
    ensures Mentions(Project(a, b), x)
  {
    FieldDiffers(a, b, x);
    var (s, f) := Unscope(x.scope, x.tag);
    FieldReported(a, b, s, f);
    var e :| e in StepSingle(a, b, s) && e.anchor == x;
    ProjectMember(a, b, e);
  }

  /** After one step the index shows the new value if the step mentions the anchor. */
  lemma StepAt(m: Index, a: Config, b: Config, x: Anchor)
    requires Legal(a) && Legal(b) && (x.RowAnchor? ==> RowGood(a, b, x)) && Lookup(m, x) == ValueAt(a, x)
    ensures Lookup(Replay(m, Project(a, b)), x) == if Mentions(Project(a, b), x) then ValueAt(b, x) else ValueAt(a, x)
  {
    hide Project; hide Replay; hide ValueAt; hide RowGood; hide Legal;
    var es := Project(a, b);
    ReplayAt(m, es, x);
    forall e | e in es && e.anchor == x ensures Outcome(e) == ValueAt(b, x) {
      if x.RowAnchor? { RowEventOutcome(a, b, e); } else { FieldEventOutcome(a, b, e); }
    }
    LastOutcomeAgreed(es, x, Lookup(m, x), ValueAt(b, x));
  }

  /** An index that is right at an anchor is right there after the step, whatever happens elsewhere. */
  lemma StepRightAt(m: Index, a: Config, b: Config, x: Anchor)
    requires Legal(a) && Legal(b) && GoodAt(a, b, x) && Lookup(m, x) == ValueAt(a, x)
    ensures Lookup(Replay(m, Project(a, b)), x) == ValueAt(b, x)
  {
    hide Project; hide Replay; hide ValueAt; hide RowGood; hide FieldNested; hide Legal;
    StepAt(m, a, b, x);
    if ValueAt(a, x) != ValueAt(b, x) {
      if x.RowAnchor? {
        RowChangeReported(a, b, x);
      } else {
        FieldChangeReported(a, b, x);
      }
    }
  }

  /** At a field the condition is exact: the index is right there after the step if and only if the
      field did not change inside a nested model. */
  lemma FieldStepIff(m: Index, a: Config, b: Config, s: string, f: string)
    requires Legal(a) && Legal(b) && s in SINGLETONS && LegalField(s, f)
    requires Lookup(m, FieldAnchorOf(s, f)) == ValueAt(a, FieldAnchorOf(s, f))
    ensures Lookup(Replay(m, Project(a, b)), FieldAnchorOf(s, f)) == ValueAt(b, FieldAnchorOf(s, f)) <==>
      !NestedChange(a, b, s, f)
  {
    hide Project; hide Replay; hide ValueAt; hide Legal; hide NestedChange;
    var x := FieldAnchorOf(s, f);
    AliasesInverse(s, f);
    assert FieldNested(a, b, x) <==> NestedChange(a, b, s, f);
    if NestedChange(a, b, s, f) {
      if e :| e in Project(a, b) && e.anchor == x { FieldEventOutcome(a, b, e); }
      StepAt(m, a, b, x);
      FieldAnchorValue(a, s, f);
      FieldAnchorValue(b, s, f);
      NestedDiffers(a, b, s, f);
    } else {
      StepRightAt(m, a, b, x);
    }
  }

  lemma NestedDiffers(a: Config, b: Config, s: string, f: string)
    requires NestedChange(a, b, s, f)
    ensures FieldValue(a, s, f) != FieldValue(b, s, f)
  {}

  /** At a row anchor that no row of the new snapshot has, it is exact without any alignment: the
      index is right after the step if and only if there was nothing to forget, or a row that had
      the anchor lost its diff key too. A VLAN whose interface is renamed under the same key is the
      other case: its old anchor stays in the index. */
  lemma VanishedStepIff(m: Index, a: Config, b: Config, spec: RowSpec, x: Anchor)
    requires spec in ROW_SPECS && x.RowAnchor? && x.kind == spec.kind && Lookup(m, x) == ValueAt(a, x)
    requires forall r | r in RowsOf(b, spec.section) :: AnchorOf(spec, r) != Some(x)
    ensures Lookup(Replay(m, Project(a, b)), x) == ValueAt(b, x) <==>
            ValueAt(a, x) == None || Dropped(spec, RowsOf(a, spec.section), RowsOf(b, spec.section), x)
    ensures Lookup(Replay(m, Project(a, b)), x) == None || Lookup(Replay(m, Project(a, b)), x) == ValueAt(a, x)
    ensures ValueAt(b, x) == None
  {
    hide Project; hide Replay; hide Dropped; hide AnchorOf; hide LastSuch;
    var A, B := RowsOf(a, spec.section), RowsOf(b, spec.section);
    SpecByKind(spec);
    VanishedReportedIff(spec, A, B, OrderSensitive(spec.section), x);
    NoRowNoLast(spec, B, x);
    var es := Project(a, b);
    ReplayAt(m, es, x);
    forall e | e in es && e.anchor == x ensures Outcome(e) == None && e in StepRows(a, b, spec) {
      RowEventOrigin(a, b, e);
      assert e in SectionEvents(spec, A, B, OrderSensitive(spec.section));
    }
    LastOutcomeAgreed(es, x, Lookup(m, x), None);
    if e :| e in StepRows(a, b, spec) && e.anchor == x { ProjectMember(a, b, e); }
  }

  lemma NoRowNoLast(spec: RowSpec, rows: seq<Dict>, x: Anchor)
    requires forall r | r in rows :: AnchorOf(spec, r) != Some(x)
    ensures RowValue(rows, spec, x) == None
  {
    LastSuchIsLast(rows, (r: Dict) => AnchorOf(spec, r) == Some(x));
  }

  // ---- one step at all anchors ----

  lemma StepGoodAt(a: Config, b: Config, x: Anchor)
    requires AlignedStep(a, b)
    ensures x.RowAnchor? ==> RowGood(a, b, x)
  {
    hide Aligned; hide AlignedAt;
    if x.RowAnchor? {
      FoundSpec(ROW_SPECS, x.kind);
      if FindSpec(ROW_SPECS, x.kind).Some? {
        var spec := FindSpec(ROW_SPECS, x.kind).value;
        AlignedEverywhere(spec, RowsOf(a, spec.section) + RowsOf(b, spec.section), x);
      }
    }
  }

  lemma FlatGoodAt(a: Config, b: Config, x: Anchor)
    requires FlatStep(a, b) && x.FieldAnchor?
    ensures !FieldNested(a, b, x)
  {
    hide NestedChange;
  }

  /** One step of the log is faithful exactly when no singleton field changes inside a nested model. */
  lemma StepFaithfulIffFlat(m: Index, a: Config, b: Config)
    requires Legal(a) && Legal(b) && AlignedStep(a, b) && Shows(m, a)
    ensures Shows(Replay(m, Project(a, b)), b) <==> FlatStep(a, b)
  {
    hide Project; hide Replay; hide AlignedStep; hide Legal; hide RowGood; hide FieldNested; hide ValueAt;
    if FlatStep(a, b) {
      forall x ensures Lookup(Replay(m, Project(a, b)), x) == ValueAt(b, x) {
        if x.RowAnchor? { StepGoodAt(a, b, x); } else { FlatGoodAt(a, b, x); }
        StepRightAt(m, a, b, x);
      }
    } else {
      var s, f :| s in SINGLETONS && LegalField(s, f) && NestedChange(a, b, s, f);
      FieldStepIff(m, a, b, s, f);
      assert Lookup(Replay(m, Project(a, b)), FieldAnchorOf(s, f)) != ValueAt(b, FieldAnchorOf(s, f));
    }
  }

  // ---- the seed ----

  lemma {:induction false} SeedRowsAt(spec: RowSpec, rows: seq<Dict>, x: Anchor, start: Option<Json>)
    ensures LastOutcome(RowEvents(spec, rows, Added), x, start) ==
            if RowValue(rows, spec, x).Some? then RowValue(rows, spec, x) else start
  {
    if rows != [] {
      var n := |rows| - 1;
      SeedRowsAt(spec, rows[..n], x, start);
      var es := RowEvents(spec, rows[..n], Added);
      LastOutcomeConcat(es, RowEvent(spec, rows[n], Added), x, start);
      if AnchorOf(spec, rows[n]) == Some(x) {
        RowOutcome(Event(x, Added, Obj(rows[n])), rows[n]);
      }
    }
  }

  lemma RowEventsKind(spec: RowSpec, rows: seq<Dict>, kind: Kind, x: Anchor)
    requires x.FieldAnchor? || x.kind != spec.kind
    ensures !Mentions(RowEvents(spec, rows, kind), x)
  {
    if e :| e in RowEvents(spec, rows, kind) && e.anchor == x { RowEventsMember(spec, rows, kind, e); }
  }

  /** The singleton part of the seed, one section. */
  lemma SeedSingleAt(cfg: Config, s: string, x: Anchor)
    requires Legal(cfg) && s in SINGLETONS
    ensures Mentions(SeedSingle(cfg, s), x) ==>
      && x.FieldAnchor? && Unscope(x.scope, x.tag).0 == s
      && LastOutcome(SeedSingle(cfg, s), x, None) == ValueAt(cfg, x)
    ensures x.FieldAnchor? && Unscope(x.scope, x.tag).0 == s && !Mentions(SeedSingle(cfg, s), x) ==>
      ValueAt(cfg, x) == None
  {
    if s in cfg.singles {
      var whole := cfg.singles[s];
      var keys := SortedKeys(whole.Keys);
      var es := SeedSingle(cfg, s);
      forall e | e in es && e.anchor == x
        ensures x.FieldAnchor? && Unscope(x.scope, x.tag).0 == s && Outcome(e) == ValueAt(cfg, x)
      {
        WholeEventsMember(s, whole, keys, Added, e);
        var f :| f in keys && '.' !in f && e == Event(FieldAnchorOf(s, f), Added, Get(whole, f));
        assert f in Elements(keys);
        AliasesInverse(s, f);
        FieldAnchorValue(cfg, s, f);
      }
      LastOutcomeAgreed(es, x, None, ValueAt(cfg, x));
      if x.FieldAnchor? && Unscope(x.scope, x.tag).0 == s && ValueAt(cfg, x) != None {
        var f := Unscope(x.scope, x.tag).1;
        WholeReported(s, whole, Added, f);
      }
    }
  }

  lemma SingletonsDistinct(i: nat, j: nat)
    requires i < j < |SINGLETONS|
    ensures SINGLETONS[i] != SINGLETONS[j]
  {}

  /** The row part of the seed. */
  lemma SeedRowPartAt(cfg: Config, specs: seq<RowSpec>, i: nat, x: Anchor)
    requires forall j, k | 0 <= j < k < |specs| :: specs[j].kind != specs[k].kind
    requires i < |specs| && x.RowAnchor? && x.kind == specs[i].kind
    ensures LastOutcome(Flatten(SeedRows(cfg, specs)), x, None) == RowValue(RowsOf(cfg, specs[i].section), specs[i], x)
  {
    hide RowValue;
    var parts := SeedRows(cfg, specs);
    forall j | 0 <= j < |parts| && j != i ensures !Mentions(parts[j], x) {
      RowEventsKind(specs[j], RowsOf(cfg, specs[j].section), Added, x);
    }
    FlattenOutcome(parts, i, x, None);
    SeedRowsAt(specs[i], RowsOf(cfg, specs[i].section), x, None);
  }

  lemma SeedRowPartSilent(cfg: Config, specs: seq<RowSpec>, x: Anchor)
    requires x.FieldAnchor? || forall spec | spec in specs :: spec.kind != x.kind
    ensures !Mentions(Flatten(SeedRows(cfg, specs)), x)
  {
    var parts := SeedRows(cfg, specs);
    forall j | 0 <= j < |parts| ensures !Mentions(parts[j], x) {
      RowEventsKind(specs[j], RowsOf(cfg, specs[j].section), Added, x);
    }
    FlattenSilent(parts, x);
  }

  /** The singleton part of the seed. */
  lemma SeedSinglePartAt(cfg: Config, sections: seq<string>, i: nat, x: Anchor)
    requires Legal(cfg) && (forall s | s in sections :: s in SINGLETONS)
    requires forall j, k | 0 <= j < k < |sections| :: sections[j] != sections[k]
    requires i < |sections| && x.FieldAnchor? && Unscope(x.scope, x.tag).0 == sections[i]
    ensures LastOutcome(Flatten(SeedSingles(cfg, sections)), x, None) == ValueAt(cfg, x)
  {
    hide SeedSingle;
    hide ValueAt;
    var parts := SeedSingles(cfg, sections);
    forall j | 0 <= j < |parts| && j != i ensures !Mentions(parts[j], x) { SeedSingleAt(cfg, sections[j], x); }
    FlattenOutcome(parts, i, x, None);
    SeedSingleAt(cfg, sections[i], x);
    LastOutcomeUnmentioned(parts[i], x);
  }

  lemma LastOutcomeUnmentioned(es: seq<Event>, x: Anchor)
    ensures !Mentions(es, x) ==> forall start :: LastOutcome(es, x, start) == start
  {
    if !Mentions(es, x) {
      forall start ensures LastOutcome(es, x, start) == start { LastOutcomeAgreed(es, x, start, None); }
    }
  }

  lemma SeedSinglePartSilent(cfg: Config, sections: seq<string>, x: Anchor)
    requires Legal(cfg) && (forall s | s in sections :: s in SINGLETONS)
    requires x.RowAnchor? || Unscope(x.scope, x.tag).0 !in sections
    ensures !Mentions(Flatten(SeedSingles(cfg, sections)), x)
  {
    hide SeedSingle;
    var parts := SeedSingles(cfg, sections);
    forall j | 0 <= j < |parts| ensures !Mentions(parts[j], x) { SeedSingleAt(cfg, sections[j], x); }
    FlattenSilent(parts, x);
  }

  lemma SeedAt(cfg: Config, x: Anchor)
    requires Legal(cfg)
    ensures Lookup(Replay(map[], Seed(cfg)), x) == ValueAt(cfg, x)
  {
    hide RowValue;
    hide SeedRows;
    hide SeedSingles;
    hide Replay;
    hide LastOutcome;
    hide Flatten;
    hide LegalField;
    hide Legal;
    var rows, singles := Flatten(SeedRows(cfg, ROW_SPECS)), Flatten(SeedSingles(cfg, SINGLETONS));
    ReplayAt(map[], Seed(cfg), x);
    LastOutcomeConcat(rows, singles, x, None);
    LastOutcomeUnmentioned(rows, x);
    LastOutcomeUnmentioned(singles, x);
    if x.RowAnchor? {
      SeedSinglePartSilent(cfg, SINGLETONS, x);
      FoundSpec(ROW_SPECS, x.kind);
      if FindSpec(ROW_SPECS, x.kind).Some? {
        var i :| 0 <= i < |ROW_SPECS| && ROW_SPECS[i] == FindSpec(ROW_SPECS, x.kind).value;
        forall j, k | 0 <= j < k < |ROW_SPECS| ensures ROW_SPECS[j].kind != ROW_SPECS[k].kind { KindsDistinct(j, k); }
        SeedRowPartAt(cfg, ROW_SPECS, i, x);
      } else {
        forall spec | spec in ROW_SPECS ensures spec.kind != x.kind { SpecByKind(spec); }
        SeedRowPartSilent(cfg, ROW_SPECS, x);
      }
    } else {
      SeedRowPartSilent(cfg, ROW_SPECS, x);
      var s := Unscope(x.scope, x.tag).0;
      if s in SINGLETONS {
        var i :| 0 <= i < |SINGLETONS| && SINGLETONS[i] == s;
        forall j, k | 0 <= j < k < |SINGLETONS| ensures SINGLETONS[j] != SINGLETONS[k] { SingletonsDistinct(j, k); }
        SeedSinglePartAt(cfg, SINGLETONS, i, x);
      } else {
        SeedSinglePartSilent(cfg, SINGLETONS, x);
      }
    }
  }

  /** Replaying the seed of a snapshot on an empty index shows that snapshot. */
  lemma SeedShows(cfg: Config)
    requires Legal(cfg)
    ensures Shows(Replay(map[], Seed(cfg)), cfg)
  {
    hide Seed;
    hide Replay;
    hide ValueAt;
    forall x ensures Lookup(Replay(map[], Seed(cfg)), x) == ValueAt(cfg, x) { SeedAt(cfg, x); }
  }

  // ---- chains of snapshots ----

  /** The events of snapshot i of a chain: seeded for the first, projected from its predecessor after that. */
  ghost function EventsFor(chain: seq<Config>, i: nat): seq<Event>
    requires i < |chain|
  {
    if i == 0 then Seed(chain[0]) else Project(chain[i - 1], chain[i])
  }

  ghost function IndexAfter(chain: seq<Config>, i: nat): Index
    requires i < |chain|
  {
    Replay(if i == 0 then map[] else IndexAfter(chain, i - 1), EventsFor(chain, i))
  }

  /** The steps of a chain are good at one anchor. */
  ghost predicate GoodChainAt(chain: seq<Config>, x: Anchor) {
    && (forall i | 0 <= i < |chain| :: Legal(chain[i]))
    && (forall i | 0 < i < |chain| :: GoodAt(chain[i - 1], chain[i], x))
  }

  /** At every point of every chain, replaying the log gives at this anchor exactly the value of
      the snapshot of that point. */
  lemma {:induction false} ReplayAtAnchor(chain: seq<Config>, i: nat, x: Anchor)
    requires GoodChainAt(chain, x) && i < |chain|
    ensures Lookup(IndexAfter(chain, i), x) == ValueAt(chain[i], x)
  {
    hide Seed; hide Project; hide Replay; hide ValueAt; hide Legal; hide GoodAt;
    if i == 0 {
      SeedAt(chain[0], x);
    } else {
      ReplayAtAnchor(chain, i - 1, x);
      StepRightAt(IndexAfter(chain, i - 1), chain[i - 1], chain[i], x);
    }
  }

  /** The steps of a chain are good everywhere. */
  ghost predicate GoodChain(chain: seq<Config>) {
    && (forall i | 0 <= i < |chain| :: Legal(chain[i]))
    && (forall i | 0 < i < |chain| :: AlignedStep(chain[i - 1], chain[i]) && FlatStep(chain[i - 1], chain[i]))
  }

  lemma GoodEverywhere(chain: seq<Config>, x: Anchor)
    requires GoodChain(chain)
    ensures GoodChainAt(chain, x)
  {
    hide Legal; hide AlignedStep; hide FlatStep; hide RowGood; hide FieldNested;
    forall i | 0 < i < |chain| ensures GoodAt(chain[i - 1], chain[i], x) {
      StepGoodAt(chain[i - 1], chain[i], x);
      if x.FieldAnchor? { FlatGoodAt(chain[i - 1], chain[i], x); }
    }
  }

  /** When the steps are good everywhere, the replayed index is the snapshot. */
  lemma ReplayGivesEverySnapshot(chain: seq<Config>, i: nat)
    requires GoodChain(chain) && i < |chain|
    ensures Shows(IndexAfter(chain, i), chain[i])
  {
    hide GoodChain; hide GoodChainAt; hide IndexAfter; hide ValueAt;
    forall x ensures Lookup(IndexAfter(chain, i), x) == ValueAt(chain[i], x) {
      GoodEverywhere(chain, x);
      ReplayAtAnchor(chain, i, x);
    }
  }

  function WebGui(port: string): Config {
    Config(map[], map["system" := map["webgui" := Obj(map["port" := Str(port)])]])
  }

  lemma WebGuiValue(port: string)
    ensures Norm(Get(WebGui(port).singles["system"], "webgui")) == Obj(map["port" := Str(port)])
  {
    var gui := map["port" := Str(port)];
    assert Norm(Obj(gui)).fields == gui;
  }

  lemma WebGuiChanges()
    ensures NestedChange(WebGui("443"), WebGui("8443"), "system", "webgui")
  {
    hide Norm;
    WebGuiValue("443");
    WebGuiValue("8443");
    var x, y := map["port" := Str("443")], map["port" := Str("8443")];
    assert |x["port"].s| == 3 && |y["port"].s| == 4;
  }

  lemma NoRowsAligned(a: Config, b: Config, spec: RowSpec)
    requires a.rows == map[] && b.rows == map[]
    ensures Aligned(spec, RowsOf(a, spec.section) + RowsOf(b, spec.section))
  {
    assert RowsOf(a, spec.section) + RowsOf(b, spec.section) == [];
  }

  lemma WebGuiAligned(port: string, port': string)
    ensures AlignedStep(WebGui(port), WebGui(port'))
  {
    hide Aligned;
    hide RowsOf;
    forall spec | spec in ROW_SPECS
      ensures Aligned(spec, RowsOf(WebGui(port), spec.section) + RowsOf(WebGui(port'), spec.section))
    {
      NoRowsAligned(WebGui(port), WebGui(port'), spec);
    }
  }

  lemma WebGuiLegal(port: string)
    ensures Legal(WebGui(port))
  {
    var cfg := WebGui(port);
    forall s, f | s in SINGLETONS && s in cfg.singles && f in cfg.singles[s] ensures LegalField(s, f) {
      assert s == "system" && f == "webgui";
    }
  }

  /** The limit is real: a changed web GUI port sits inside a nested model and never reaches the log. */
  lemma NestedFieldMissed()
    ensures var a, b := WebGui("443"), WebGui("8443");
      && Legal(a) && Legal(b) && AlignedStep(a, b)
      && Shows(Replay(map[], Seed(a)), a) && !Shows(Replay(Replay(map[], Seed(a)), Project(a, b)), b)
  {
    hide *;
    var a, b := WebGui("443"), WebGui("8443");
    WebGuiLegal("443");
    WebGuiLegal("8443");
    WebGuiAligned("443", "8443");
    SeedShows(a);
    WebGuiChanges();
    NotFlat(a, b, "system", "webgui");
    StepFaithfulIffFlat(Replay(map[], Seed(a)), a, b);
  }

  lemma NotFlat(a: Config, b: Config, s: string, f: string)
    requires NestedChange(a, b, s, f) && s == "system" && f == "webgui"
    ensures !FlatStep(a, b)
  {
    hide NestedChange;
    assert SINGLETONS[0] == s && LegalField(s, f);
  }

  function Vlan(device: string): Config {
    Config(map["vlans" := [map["key" := Str("em0.100"), "vlanif" := Str(device)]]], map[])
  }

  const VLANS := RowSpec("vlans", "vlan", "vlanif", "key")

  lemma VlanAnchor(device: string)
    ensures RowsOf(Vlan(device), VLANS.section) == [map["key" := Str("em0.100"), "vlanif" := Str(device)]]
    ensures AnchorOf(VLANS, RowsOf(Vlan(device), VLANS.section)[0]) == Some(RowAnchor("vlan", Safe(device)))
    ensures DiffKey(VLANS)(RowsOf(Vlan(device), VLANS.section)[0]) == "em0.100"
  {}

  lemma VlanTable(device: string)
    ensures ByKey(RowsOf(Vlan(device), VLANS.section), DiffKey(VLANS)).Keys == {"em0.100"}
  {
    hide Safe;
    VlanAnchor(device);
    var rows := RowsOf(Vlan(device), VLANS.section);
    assert rows[..0] == [];
    assert ByKey(rows[..0], DiffKey(VLANS)) == map[];
  }

  lemma VlanValue(device: string)
    ensures ValueAt(Vlan(device), RowAnchor("vlan", Safe(device))) != None
  {
    hide Safe;
    VlanAnchor(device);
    assert ROW_SPECS[4] == VLANS;
    SpecByKind(VLANS);
    var rows := RowsOf(Vlan(device), VLANS.section);
    LastSuchIsLast(rows, (r: Dict) => AnchorOf(VLANS, r) == Some(RowAnchor("vlan", Safe(device))));
  }

  lemma VlanLegal(device: string)
    ensures Legal(Vlan(device))
  {}

  lemma VlanRenamed(device: string, renamed: string)
    requires Safe(device) != Safe(renamed)
    ensures var x := RowAnchor("vlan", Safe(device));
      && (forall r | r in RowsOf(Vlan(renamed), VLANS.section) :: AnchorOf(VLANS, r) != Some(x))
      && !Dropped(VLANS, RowsOf(Vlan(device), VLANS.section), RowsOf(Vlan(renamed), VLANS.section), x)
  {
    hide Safe; hide ByKey; hide DiffKey; hide AnchorOf;
    VlanAnchor(renamed);
    VlanTable(device);
    VlanTable(renamed);
  }

  /** The limit for rows is real too: a VLAN whose device is renamed under the same key leaves its
      old anchor in the index, whatever the two names. */
  lemma RenamedVlanLingers(device: string, renamed: string)
    requires Safe(device) != Safe(renamed)
    ensures var a, b, x := Vlan(device), Vlan(renamed), RowAnchor("vlan", Safe(device));
      ValueAt(b, x) == None && Lookup(Replay(Replay(map[], Seed(a)), Project(a, b)), x) == ValueAt(a, x) != None
  {
    hide *;
    var a, b, x := Vlan(device), Vlan(renamed), RowAnchor("vlan", Safe(device));
    VlanLegal(device);
    VlanValue(device);
    VlanRenamed(device, renamed);
    SeedAt(a, x);
    VlanIsSpec();
    VanishedStepIff(Replay(map[], Seed(a)), a, b, VLANS, x);
  }

  lemma VlanIsSpec()
    ensures VLANS in ROW_SPECS && VLANS.kind == "vlan"
  {
    assert ROW_SPECS[4] == VLANS;
  }
}
