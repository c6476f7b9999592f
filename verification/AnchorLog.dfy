/** The anchor-event log: projection of a diff, seeding, and replay. */
module AnchorLog {
  import opened Basics
  import opened Json
  import opened Ordering
  import opened FieldDiff
  import opened ListDiff
  import opened Anchors

  datatype Kind = Added | Modified | Removed | Reordered
  datatype Event = Event(anchor: Anchor, kind: Kind, value: Json)

  // ---- the diff of two configurations, section by section ----

  predicate OrderSensitive(section: string) { section == "firewall_rules" || section == "nat_rules" }

  function DiffSection(a: Config, b: Config, spec: RowSpec): SectionDiff {
    DiffList(RowsOf(a, spec.section), RowsOf(b, spec.section), DiffKey(spec), OrderSensitive(spec.section))
  }

  /** `_diff_optional_model`. */
  function DiffSingle(a: Config, b: Config, section: string): SectionDiff {
    if section !in a.singles && section !in b.singles then SectionDiff([], [], [], [], 0)
    else if section !in a.singles then SectionDiff([b.singles[section]], [], [], [], 0)
    else if section !in b.singles then SectionDiff([], [a.singles[section]], [], [], 0)
    else
      var changes := FieldChanges(a.singles[section], b.singles[section]);
      if changes == [] then SectionDiff([], [], [], [], 1)
      else SectionDiff([], [], [Item(section, changes)], [], 0)
  }

  // ---- projection ----

  /** The event of one row, if the row has an anchor. */
  function RowEvent(spec: RowSpec, row: Dict, kind: Kind): seq<Event> {
    match AnchorOf(spec, row)
    case None => []
    case Some(x) => [Event(x, kind, Obj(row))]
  }

  function RowEvents(spec: RowSpec, rows: seq<Dict>, kind: Kind): seq<Event> {
    if rows == [] then [] else RowEvents(spec, rows[..|rows| - 1], kind) + RowEvent(spec, rows[|rows| - 1], kind)
  }

  /** by_diff_key: the rows of the new snapshot that have a diff key, by that key. */
  function KeyedRows(spec: RowSpec, rows: seq<Dict>): seq<Dict> {
    if rows == [] then []
    else KeyedRows(spec, rows[..|rows| - 1]) +
         if Get(rows[|rows| - 1], spec.diffField) == Null then [] else [rows[|rows| - 1]]
  }

  function Lookups(table: map<string, Dict>, keys: seq<string>): seq<Dict> {
    if keys == [] then []
    else Lookups(table, keys[..|keys| - 1]) + if keys[|keys| - 1] in table then [table[keys[|keys| - 1]]] else []
  }

  function ItemKeys(items: seq<Item>): seq<string> { seq(|items|, i requires 0 <= i < |items| => items[i].key) }
  function ReorderKeys(rs: seq<Reorder>): seq<string> { seq(|rs|, i requires 0 <= i < |rs| => rs[i].key) }

  /** The row-section part of `diff_to_anchor_events`. */
  function ProjectRows(spec: RowSpec, d: SectionDiff, after: seq<Dict>): seq<Event> {
    var table := ByKey(KeyedRows(spec, after), DiffKey(spec));
    RowEvents(spec, d.added, Added) + RowEvents(spec, d.removed, Removed)
    + RowEvents(spec, Lookups(table, ItemKeys(d.modified)), Modified)
    + RowEvents(spec, Lookups(table, ReorderKeys(d.reordered)), Reordered)
  }

  function FieldAnchorOf(section: string, field: string): Anchor {
    var (scope, tag) := Rescope(section, field); FieldAnchor(scope, tag)
  }

  function FieldEvent(section: string, field: string, kind: Kind, value: Json): seq<Event> {
    if '.' in field then [] else [Event(FieldAnchorOf(section, field), kind, value)]
  }

  /** A whole singleton section appeared or disappeared: one event per field. */
  function WholeEvents(section: string, whole: Dict, fields: seq<string>, kind: Kind): seq<Event> {
    if fields == [] then []
    else WholeEvents(section, whole, fields[..|fields| - 1], kind)
         + FieldEvent(section, fields[|fields| - 1], kind, Get(whole, fields[|fields| - 1]))
  }

  /** One field change of a singleton. Deeper paths contain a dot and are skipped. */
  function ChangeEvent(section: string, c: Change): seq<Event> {
    if |c.path| != 1 then []
    else if c.after == Null && c.before != Null then FieldEvent(section, c.path[0], Removed, c.before)
    else if c.before == Null && c.after != Null then FieldEvent(section, c.path[0], Added, c.after)
    else FieldEvent(section, c.path[0], Modified, c.after)
  }

  function ChangeEvents(section: string, cs: seq<Change>): seq<Event> {
    if cs == [] then [] else ChangeEvents(section, cs[..|cs| - 1]) + ChangeEvent(section, cs[|cs| - 1])
  }

  /** The singleton part of `diff_to_anchor_events`. */
  function ProjectSingle(section: string, d: SectionDiff): seq<Event> {
    (if d.added == [] then [] else WholeEvents(section, d.added[0], SortedKeys(d.added[0].Keys), Added))
    + (if d.removed == [] then [] else WholeEvents(section, d.removed[0], SortedKeys(d.removed[0].Keys), Removed))
    + (if d.modified == [] then [] else ChangeEvents(section, d.modified[0].changes))
  }

  /** One row section of the step from a to b. */
  function StepRows(a: Config, b: Config, spec: RowSpec): seq<Event> {
    ProjectRows(spec, DiffSection(a, b, spec), RowsOf(b, spec.section))
  }

  /** One singleton section of the step. */
  function StepSingle(a: Config, b: Config, section: string): seq<Event> {
    ProjectSingle(section, DiffSingle(a, b, section))
  }

  function RowSteps(a: Config, b: Config, specs: seq<RowSpec>): seq<seq<Event>> {
    seq(|specs|, i requires 0 <= i < |specs| => StepRows(a, b, specs[i]))
  }

  function SingleSteps(a: Config, b: Config, sections: seq<string>): seq<seq<Event>> {
    seq(|sections|, i requires 0 <= i < |sections| => StepSingle(a, b, sections[i]))
  }

  /** `diff_to_anchor_events(diff_configs(a, b), b)` without the package sections. */
  function Project(a: Config, b: Config): seq<Event> {
    Flatten(RowSteps(a, b, ROW_SPECS)) + Flatten(SingleSteps(a, b, SINGLETONS))
  }

  // ---- seeding ----

  function SeedSingle(cfg: Config, section: string): seq<Event> {
    if section !in cfg.singles then []
    else WholeEvents(section, cfg.singles[section], SortedKeys(cfg.singles[section].Keys), Added)
  }

  function SeedRows(cfg: Config, specs: seq<RowSpec>): seq<seq<Event>> {
    seq(|specs|, i requires 0 <= i < |specs| => RowEvents(specs[i], RowsOf(cfg, specs[i].section), Added))
  }

  function SeedSingles(cfg: Config, sections: seq<string>): seq<seq<Event>> {
    seq(|sections|, i requires 0 <= i < |sections| => SeedSingle(cfg, sections[i]))
  }

  /** `enumerate_anchors` without the package sections, each pair recorded as an added event. */
  function Seed(cfg: Config): seq<Event> {
    Flatten(SeedRows(cfg, ROW_SPECS)) + Flatten(SeedSingles(cfg, SINGLETONS))
  }

  // ---- replay ----

  type Index = map<Anchor, Json>

  function Outcome(e: Event): Option<Json> {
    if e.kind == Removed then None else Present(e.value)
  }

  function ApplyEvent(m: Index, e: Event): Index {
    match Outcome(e)
    case None => m - {e.anchor}
    case Some(v) => m[e.anchor := v]
  }

  function Replay(m: Index, es: seq<Event>): Index {
    if es == [] then m else ApplyEvent(Replay(m, es[..|es| - 1]), es[|es| - 1])
  }

  function Lookup(m: Index, x: Anchor): Option<Json> { if x in m then Some(m[x]) else None }

  /** The index shows exactly the anchors of the snapshot, with their values. */
  ghost predicate Shows(m: Index, cfg: Config) { forall x :: Lookup(m, x) == ValueAt(cfg, x) }

  /** What the last event about x leaves, or the starting value when there is none. */
  function LastOutcome(es: seq<Event>, x: Anchor, start: Option<Json>): Option<Json> {
    if es == [] then start
    else if es[|es| - 1].anchor == x then Outcome(es[|es| - 1])
    else LastOutcome(es[..|es| - 1], x, start)
  }

  lemma {:induction false} ReplayAt(m: Index, es: seq<Event>, x: Anchor)
    ensures Lookup(Replay(m, es), x) == LastOutcome(es, x, Lookup(m, x))
  {
    if es != [] { ReplayAt(m, es[..|es| - 1], x); }
  }

  lemma {:induction false} LastOutcomeConcat(es: seq<Event>, fs: seq<Event>, x: Anchor, start: Option<Json>)
    ensures LastOutcome(es + fs, x, start) == LastOutcome(fs, x, LastOutcome(es, x, start))
  {
    if fs == [] {
      assert es + fs == es;
    } else {
      assert (es + fs)[..|es + fs| - 1] == es + fs[..|fs| - 1];
      LastOutcomeConcat(es, fs[..|fs| - 1], x, start);
    }
  }

  ghost predicate Mentions(es: seq<Event>, x: Anchor) { exists e :: e in es && e.anchor == x }

  /** When all events about x agree, their order does not matter. */
  lemma {:induction false} LastOutcomeAgreed(es: seq<Event>, x: Anchor, start: Option<Json>, v: Option<Json>)
    requires forall e | e in es && e.anchor == x :: Outcome(e) == v
    ensures LastOutcome(es, x, start) == if Mentions(es, x) then v else start
  {
    if es != [] {
      var n := |es| - 1;
      LastOutcomeAgreed(es[..n], x, start, v);
      assert es == es[..n] + [es[n]];
    }
  }

  lemma FlattenSilent(parts: seq<seq<Event>>, x: Anchor)
    requires forall j | 0 <= j < |parts| :: !Mentions(parts[j], x)
    ensures !Mentions(Flatten(parts), x)
  {
    if e :| e in Flatten(parts) && e.anchor == x {
      FlattenMember(parts, e);
    }
  }

  /** Sections that say nothing about x do not matter to it. */
  lemma {:induction false} FlattenOutcome(parts: seq<seq<Event>>, i: nat, x: Anchor, start: Option<Json>)
    requires i < |parts| && forall j | 0 <= j < |parts| && j != i :: !Mentions(parts[j], x)
    ensures LastOutcome(Flatten(parts), x, start) == LastOutcome(parts[i], x, start)
  {
    var n := |parts| - 1;
    var init := Flatten(parts[..n]);
    LastOutcomeConcat(init, parts[n], x, start);
    if i < n {
      FlattenOutcome(parts[..n], i, x, start);
      LastOutcomeAgreed(parts[n], x, LastOutcome(init, x, start), None);
    } else {
      FlattenSilent(parts[..n], x);
      LastOutcomeAgreed(init, x, start, None);
    }
  }

  // ---- membership in the projected lists ----

  lemma {:induction false} RowEventsMember(spec: RowSpec, rows: seq<Dict>, kind: Kind, e: Event)
    ensures e in RowEvents(spec, rows, kind) <==>
            e.kind == kind && e.value.Obj? && e.value.fields in rows && AnchorOf(spec, e.value.fields) == Some(e.anchor)
  {
    if rows != [] {
      var n := |rows| - 1;
      RowEventsMember(spec, rows[..n], kind, e);
      assert rows == rows[..n] + [rows[n]];
    }
  }

  lemma {:induction false} KeyedRowsMember(spec: RowSpec, rows: seq<Dict>, r: Dict)
    ensures r in KeyedRows(spec, rows) <==> r in rows && Get(r, spec.diffField) != Null
  {
    if rows != [] {
      var n := |rows| - 1;
      KeyedRowsMember(spec, rows[..n], r);
      assert rows == rows[..n] + [rows[n]];
    }
  }

  lemma ByKeySnoc(rows: seq<Dict>, key: Key, r: Dict)
    ensures ByKey(rows + [r], key) == ByKey(rows, key)[key(r) := r]
  {
    assert (rows + [r])[..|rows|] == rows;
  }

  /** One more row: filed in by_diff_key if its column is filled. */
  lemma KeyedTableStep(spec: RowSpec, rows: seq<Dict>)
    requires rows != []
    ensures var n := |rows| - 1;
      var t := ByKey(KeyedRows(spec, rows[..n]), DiffKey(spec));
      ByKey(KeyedRows(spec, rows), DiffKey(spec)) ==
      if Get(rows[n], spec.diffField) == Null then t else t[DiffKey(spec)(rows[n]) := rows[n]]
  {
    hide ByKey; hide DiffKey;
    var keyed := KeyedRows(spec, rows[..|rows| - 1]);
    assert keyed + [] == keyed;
    ByKeySnoc(keyed, DiffKey(spec), rows[|rows| - 1]);
  }

  lemma {:induction false} LookupsMember(table: map<string, Dict>, keys: seq<string>, r: Dict)
    ensures r in Lookups(table, keys) <==> exists k :: k in keys && k in table && table[k] == r
  {
    if keys != [] {
      var n := |keys| - 1;
      LookupsMember(table, keys[..n], r);
      assert keys == keys[..n] + [keys[n]];
    }
  }
}
