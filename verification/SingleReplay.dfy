/** Events of the singleton sections against the fields of the snapshots. */
module SingleReplay {
  import opened Basics
  import opened Json
  import opened Ordering
  import opened FieldDiff
  import opened ListDiff
  import opened Anchors
  import opened AnchorLog

  ghost function FieldValue(cfg: Config, section: string, field: string): Option<Json> {
    if section in cfg.singles then Present(Get(cfg.singles[section], field)) else None
  }

  lemma FieldAnchorValue(cfg: Config, section: string, field: string)
    requires section in SINGLETONS && LegalField(section, field)
    ensures ValueAt(cfg, FieldAnchorOf(section, field)) == FieldValue(cfg, section, field)
  {
    AliasesInverse(section, field);
  }

  /** Both snapshots hold a nested model in the field, and the two differ. */
  ghost predicate NestedChange(a: Config, b: Config, section: string, field: string) {
    section in a.singles && section in b.singles &&
    var av, bv := Get(a.singles[section], field), Get(b.singles[section], field);
    av.Obj? && bv.Obj? && Norm(av) != Norm(bv)
  }

  lemma {:induction false} WholeEventsMember(section: string, whole: Dict, fields: seq<string>, kind: Kind, e: Event)
    ensures e in WholeEvents(section, whole, fields, kind) <==>
            exists f :: f in fields && '.' !in f && e == Event(FieldAnchorOf(section, f), kind, Get(whole, f))
  {
    if fields != [] {
      var n := |fields| - 1;
      WholeEventsMember(section, whole, fields[..n], kind, e);
      assert fields == fields[..n] + [fields[n]];
    }
  }

  lemma {:induction false} ChangeEventsMember(section: string, cs: seq<Change>, e: Event)
    ensures e in ChangeEvents(section, cs) <==> exists c :: c in cs && e in ChangeEvent(section, c)
  {
    if cs != [] {
      var n := |cs| - 1;
      ChangeEventsMember(section, cs[..n], e);
      assert cs == cs[..n] + [cs[n]];
    }
  }

  /** The event is about a field of the section and says what the new snapshot shows there. */
  ghost predicate FieldSound(a: Config, b: Config, section: string, e: Event, f: string) {
    && LegalField(section, f) && e.anchor == FieldAnchorOf(section, f)
    && Outcome(e) == FieldValue(b, section, f) && !NestedChange(a, b, section, f)
  }

  lemma ChangeSound(a: Config, b: Config, section: string, c: Change, e: Event)
    requires section in SINGLETONS && Legal(a) && Legal(b) && section in a.singles && section in b.singles
    requires IsChange(a.singles[section], b.singles[section], c) && e in ChangeEvent(section, c)
    ensures FieldSound(a, b, section, e, c.path[0])
  {
    var f := c.path[0];
    assert f in a.singles[section] || f in b.singles[section];
  }

  lemma SingleEventSound(a: Config, b: Config, section: string, e: Event)
    requires section in SINGLETONS && Legal(a) && Legal(b)
    requires e in ProjectSingle(section, DiffSingle(a, b, section))
    ensures exists f :: FieldSound(a, b, section, e, f)
  {
    if section !in a.singles {
      WholeSound(a, b, section, b.singles[section], Added, e);
    } else if section !in b.singles {
      WholeSound(a, b, section, a.singles[section], Removed, e);
    } else {
      var cs := FieldChanges(a.singles[section], b.singles[section]);
      ChangeEventsMember(section, cs, e);
      var c :| c in cs && e in ChangeEvent(section, c);
      FieldChangesMember(a.singles[section], b.singles[section], c);
      ChangeSound(a, b, section, c, e);
    }
  }

  lemma WholeSound(a: Config, b: Config, section: string, whole: Dict, kind: Kind, e: Event)
    requires section in SINGLETONS && Legal(a) && Legal(b)
    requires if kind == Added then section !in a.singles && section in b.singles && whole == b.singles[section]
             else kind == Removed && section in a.singles && section !in b.singles && whole == a.singles[section]
    requires e in WholeEvents(section, whole, SortedKeys(whole.Keys), kind)
    ensures exists f :: FieldSound(a, b, section, e, f)
  {
    var keys := SortedKeys(whole.Keys);
    WholeEventsMember(section, whole, keys, kind, e);
    var f :| f in keys && '.' !in f && e == Event(FieldAnchorOf(section, f), kind, Get(whole, f));
    assert f in Elements(keys);
    assert FieldSound(a, b, section, e, f);
  }

  /** A changed field has an event, unless the change is inside a nested model. */
  lemma FieldReported(a: Config, b: Config, section: string, f: string)
    requires section in SINGLETONS && LegalField(section, f)
    requires FieldValue(a, section, f) != FieldValue(b, section, f) && !NestedChange(a, b, section, f)
    ensures Mentions(ProjectSingle(section, DiffSingle(a, b, section)), FieldAnchorOf(section, f))
  {
    if section !in a.singles {
      WholeReported(section, b.singles[section], Added, f);
    } else if section !in b.singles {
      WholeReported(section, a.singles[section], Removed, f);
    } else {
      var x, y := a.singles[section], b.singles[section];
      var c := Change([f], Get(x, f), Get(y, f));
      FieldChangesMember(x, y, c);
      assert ChangeEvent(section, c) != [] && ChangeEvent(section, c)[0].anchor == FieldAnchorOf(section, f);
      ChangeEventsMember(section, FieldChanges(x, y), ChangeEvent(section, c)[0]);
      assert DiffSingle(a, b, section).modified == [Item(section, FieldChanges(x, y))];
      assert ChangeEvent(section, c)[0] in ProjectSingle(section, DiffSingle(a, b, section));
    }
  }

  lemma WholeReported(section: string, whole: Dict, kind: Kind, f: string)
    requires f in whole && '.' !in f
    ensures Mentions(WholeEvents(section, whole, SortedKeys(whole.Keys), kind), FieldAnchorOf(section, f))
  {
    var e := Event(FieldAnchorOf(section, f), kind, Get(whole, f));
    assert f in Elements(SortedKeys(whole.Keys));
    WholeEventsMember(section, whole, SortedKeys(whole.Keys), kind, e);
  }
}
