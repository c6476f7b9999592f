/** The texts the resolver answers with at a field, and the ids it is asked by. */
module ResolvedText {
  import opened Basics
  import opened Json
  import opened Ordering
  import opened Anchors
  import opened AnchorLog
  import opened SingleReplay
  import opened EventKinds
  import opened Resolver
  import opened ResolverPackages

  /** What a field holding v is answered with: nothing for None, yes or no, the string itself, or
      str() of a number or nested model. Lists have their own law. */
  ghost predicate AnswersScalar(v: Json, answer: Option<Resolved>, repr: Json -> string) {
    match v
    case Null => answer == None
    case Bool(true) => answer == Some(Text("yes"))
    case Bool(false) => answer == Some(Text("no"))
    case Str(s) => answer == Some(Text(s))
    case Arr(_) => answer.Some? && answer.value.Text?
    case _ => answer == Some(Text(repr(v)))
  }

  /** A list: empty text for no item; for one item its text, empty for None; and two non-empty
      lists one after the other with a comma and a space between them. */
  ghost predicate AnswersList(none: Option<Resolved>, item: Option<Resolved>, one: Option<Resolved>,
      front: Option<Resolved>, back: Option<Resolved>, both: Option<Resolved>)
  {
    && none == Some(Text(""))
    && one == (if item == None then Some(Text("")) else item)
    && front.Some? && front.value.Text? && back.Some? && back.value.Text?
    && both == Some(Text(front.value.text + ", " + back.value.text))
  }

  lemma {:induction false} JoinTwo(xs: seq<Json>, ys: seq<Json>, repr: Json -> string)
    requires xs != [] && ys != []
    ensures JoinItems(xs + ys, repr) == JoinItems(xs, repr) + ", " + JoinItems(ys, repr)
  {
    hide Stringify;
    var head := match Stringify(xs[0], repr) case None => "" case Some(t) => t;
    assert (xs + ys)[0] == xs[0];
    if |xs| == 1 {
      assert (xs + ys)[1..] == ys;
    } else {
      JoinTwo(xs[1..], ys, repr);
      assert (xs + ys)[1..] == xs[1..] + ys;
      Regroup(head, JoinItems(xs[1..], repr), JoinItems(ys, repr));
    }
  }

  lemma Regroup(a: string, b: string, c: string)
    ensures a + ", " + (b + ", " + c) == a + ", " + b + ", " + c
  {}

  lemma TextMeans(v: Json, repr: Json -> string)
    ensures AnswersScalar(v, AsText(v, repr), repr)
  {}

  lemma ListMeans(v: Json, xs: seq<Json>, ys: seq<Json>, repr: Json -> string)
    requires xs != [] && ys != []
    ensures AnswersList(AsText(Arr([]), repr), AsText(v, repr), AsText(Arr([v]), repr),
                        AsText(Arr(xs), repr), AsText(Arr(ys), repr), AsText(Arr(xs + ys), repr))
  {
    JoinTwo(xs, ys, repr);
    OneItem(v, repr);
  }

  lemma OneItem(v: Json, repr: Json -> string)
    ensures JoinItems([v], repr) == match Stringify(v, repr) case None => "" case Some(t) => t
  {
    assert [v][0] == v;
  }

  // ---- singleton fields ----

  /** The snapshot holds v in the field; a missing field holds None. */
  ghost predicate FieldHolds(cfg: Config, s: string, f: string, v: Json) {
    s in SINGLETONS && NamedField(s, f) && s in cfg.singles && Get(cfg.singles[s], f) == v
  }

  lemma FieldAnswer(cfg: Config, s: string, f: string, v: Json, repr: Json -> string)
    requires FieldHolds(cfg, s, f, v)
    ensures Resolve(cfg, Render(FieldAnchorOf(s, f)), repr) == AsText(v, repr)
  {
    hide ParseAnchor; hide Render; hide Stringify;
    FieldAnchorShape(s, f);
    AliasesInverse(s, f);
    ParseRender(FieldAnchorOf(s, f));
  }

  /** What the resolver answers at a field of a singleton section. */
  lemma FieldAnswers(cfg: Config, s: string, f: string, v: Json, repr: Json -> string)
    requires FieldHolds(cfg, s, f, v)
    ensures AnswersScalar(v, Resolve(cfg, Render(FieldAnchorOf(s, f)), repr), repr)
  {
    hide Resolve; hide AsText; hide FieldHolds; hide Render; hide FieldAnchorOf; hide AnswersScalar;
    FieldAnswer(cfg, s, f, v, repr);
    TextMeans(v, repr);
  }

  /** The id of a field, in the same snapshot with another value in it. */
  function Holding(cfg: Config, s: string, f: string, v: Json): Config {
    cfg.(singles := cfg.singles[s := (if s in cfg.singles then cfg.singles[s] else map[])[f := v]])
  }

  /** Lists in a field of a singleton section. */
  lemma FieldListAnswers(cfg: Config, s: string, f: string, v: Json, xs: seq<Json>, ys: seq<Json>, repr: Json -> string)
    requires s in SINGLETONS && NamedField(s, f) && xs != [] && ys != []
    ensures var answer := (w: Json) => Resolve(Holding(cfg, s, f, w), Render(FieldAnchorOf(s, f)), repr);
      AnswersList(answer(Arr([])), answer(v), answer(Arr([v])), answer(Arr(xs)), answer(Arr(ys)), answer(Arr(xs + ys)))
  {
    hide Resolve; hide AsText; hide NamedField; hide Render; hide FieldAnchorOf; hide AnswersList;
    forall w ensures Resolve(Holding(cfg, s, f, w), Render(FieldAnchorOf(s, f)), repr) == AsText(w, repr) {
      FieldAnswer(Holding(cfg, s, f, w), s, f, w, repr);
    }
    ListMeans(v, xs, ys, repr);
  }

  // ---- package fields ----

  function HoldingPackage(full: Full, pkg: string, d: Dict): Full {
    full.(packages := Obj((if full.packages.Obj? then full.packages.fields else map[])[pkg := Obj(d)]))
  }

  lemma HoldsPackage(full: Full, pkg: string, d: Dict)
    ensures Descend(HoldingPackage(full, pkg, d).packages, [pkg]) == Obj(d)
  {}

  /** What the resolver answers at a field of a package model. */
  lemma PackageAnswers(full: Full, pkg: string, d: Dict, f: string, repr: Json -> string)
    requires pkg in PACKAGES && Descend(full.packages, [pkg]) == Obj(d) && f != "" && '\n' !in f
    ensures AnswersScalar(Get(d, f), ResolveFull(full, Render(FieldAnchor(pkg, f)), repr), repr)
  {
    hide ResolveFull; hide AsText; hide Render; hide AnswersScalar; hide Descend;
    PackageFieldResolves(full, pkg, d, f, repr);
    TextMeans(Get(d, f), repr);
  }

  /** Lists in a field of a package model. */
  lemma PackageListAnswers(full: Full, pkg: string, d: Dict, f: string, v: Json, xs: seq<Json>, ys: seq<Json>,
      repr: Json -> string)
    requires pkg in PACKAGES && f != "" && '\n' !in f && xs != [] && ys != []
    ensures var answer := (w: Json) =>
        ResolveFull(HoldingPackage(full, pkg, d[f := w]), Render(FieldAnchor(pkg, f)), repr);
      AnswersList(answer(Arr([])), answer(v), answer(Arr([v])), answer(Arr(xs)), answer(Arr(ys)), answer(Arr(xs + ys)))
  {
    hide ResolveFull; hide AsText; hide Render; hide AnswersList; hide Descend; hide HoldingPackage;
    forall w ensures
      ResolveFull(HoldingPackage(full, pkg, d[f := w]), Render(FieldAnchor(pkg, f)), repr) == AsText(w, repr)
    {
      HoldsPackage(full, pkg, d[f := w]);
      PackageFieldResolves(HoldingPackage(full, pkg, d[f := w]), pkg, d[f := w], f, repr);
    }
    ListMeans(v, xs, ys, repr);
  }

  // ---- enumeration ----

  /** The event carries a field of a package model. */
  ghost predicate SeedsPackage(full: Full, e: Event) {
    exists pkg, f ::
      && pkg in PACKAGES && full.packages.Obj? && pkg in full.packages.fields
      && full.packages.fields[pkg].Obj? && f in full.packages.fields[pkg].fields && '.' !in f
      && e.anchor == FieldAnchor(pkg, f) && e.value == full.packages.fields[pkg].fields[f]
  }

  /** The event carries a proxy backend that has a name. */
  ghost predicate SeedsBackend(full: Full, e: Event) {
    && CarriesRow("haproxy_backend", "name", e)
    && var v := Descend(full.packages, ["haproxy", "backends"]); v.Arr? && e.value in v.items
  }

  lemma {:induction false} DictsMember(items: seq<Json>, d: Dict)
    ensures d in DictsOf(items) <==> Obj(d) in items
  {
    if items != [] {
      DictsMember(items[1..], d);
      assert items == [items[0]] + items[1..];
    }
  }

  lemma PackageMember(full: Full, pkg: string, e: Event)
    requires pkg in PACKAGES
    ensures e in PackageEvents(full, pkg) <==>
      && e.kind == Added && full.packages.Obj? && pkg in full.packages.fields && full.packages.fields[pkg].Obj?
      && exists f :: && f in full.packages.fields[pkg].fields && '.' !in f && e.anchor == FieldAnchor(pkg, f)
                     && e.value == full.packages.fields[pkg].fields[f]
  {
    hide WholeEvents; hide FieldAnchorOf;
    forall f ensures FieldAnchorOf(pkg, f) == FieldAnchor(pkg, f) { PackageAnchor(pkg, f); }
    assert Descend(full.packages, [pkg]) == (if full.packages.Obj? then Get(full.packages.fields, pkg) else Null) by {
      assert [pkg][1..] == [];
    }
    var v := Descend(full.packages, [pkg]);
    if v.Obj? { WholeMeans(pkg, v.fields, Added, e); }
  }

  /** The seed with its package part: one added event per anchor. */
  lemma SeedFullMeans(full: Full, e: Event)
    ensures e in SeedFull(full) <==>
            e in Seed(full.base) || (e.kind == Added && (SeedsPackage(full, e) || SeedsBackend(full, e)))
  {
    hide Seed; hide PackageEvents; hide Descend; hide RowEvents; hide Flatten; hide CarriesRow; hide AnchorOf;
    var parts := PackageSeeds(full, PACKAGES);
    FlattenMember(parts, e);
    forall pkg | pkg in PACKAGES ensures e in PackageEvents(full, pkg) ==> e.kind == Added && SeedsPackage(full, e) {
      PackageMember(full, pkg, e);
    }
    if e.kind == Added && SeedsPackage(full, e) { SeedsOnePackage(full, e); }
    var v := Descend(full.packages, ["haproxy", "backends"]);
    RowEventsMember(BACKENDS, BackendRows(v), Added, e);
    CarriesIsAnchor(BACKENDS, e);
    if v.Arr? && e.value.Obj? { DictsMember(v.items, e.value.fields); }
  }

  lemma SeedsOnePackage(full: Full, e: Event)
    requires e.kind == Added && SeedsPackage(full, e)
    ensures exists i :: 0 <= i < |PACKAGES| && e in PackageSeeds(full, PACKAGES)[i]
  {
    hide PackageEvents;
    var pkg, f :|
      && pkg in PACKAGES && full.packages.Obj? && pkg in full.packages.fields
      && full.packages.fields[pkg].Obj? && f in full.packages.fields[pkg].fields && '.' !in f
      && e.anchor == FieldAnchor(pkg, f) && e.value == full.packages.fields[pkg].fields[f];
    PackageMember(full, pkg, e);
    var i :| 0 <= i < |PACKAGES| && PACKAGES[i] == pkg;
    assert PackageSeeds(full, PACKAGES)[i] == PackageEvents(full, pkg);
  }

  // ---- whole sections ----

  lemma ParseSection(scope: string)
    requires scope != [] && IsWord(scope)
    ensures ParseAnchor("section-" + scope) == Some(Parsed(Section, scope, None))
  {
    assert forall i | 0 <= i < |scope| :: WordChar(scope[i]);
    NoChomp("section-", scope, scope[|scope| - 1]);
    assert ("section-" + scope)[0] == 's';
    assert WordLength(scope) == |scope|;
  }

  /** The id of a section answers with its whole model, nothing when it is absent; the unbound
      scope is part of the dns model. */
  lemma SectionAnswers(cfg: Config, s: string, repr: Json -> string)
    requires s in SINGLETONS || s == "unbound"
    ensures var model := if s == "unbound" then "dns" else s;
      Resolve(cfg, "section-" + s, repr) == if model in cfg.singles then Some(Row(cfg.singles[model])) else None
  {
    hide ParseAnchor;
    if s != "unbound" {
      var i :| 0 <= i < |SINGLETONS| && SINGLETONS[i] == s;
      SingletonIsWord(i);
    } else {
      assert IsWord("unbound");
    }
    ParseSection(s);
    assert SINGLETONS[1] == "dns";
  }

  /** The id of a package answers with its whole model, nothing when it is absent. */
  lemma PackageSectionAnswers(full: Full, pkg: string, repr: Json -> string)
    requires pkg in PACKAGES
    ensures ResolveFull(full, "section-" + pkg, repr) ==
            if full.packages.Obj? && pkg in full.packages.fields && full.packages.fields[pkg].Obj?
            then Some(Row(full.packages.fields[pkg].fields)) else None
  {
    hide ParseAnchor; hide SplitDots; hide Resolve; hide IsWord; hide PackagePath;
    PackageIsWord(pkg);
    ParseSection(pkg);
    DescendsToPackage(full, pkg);
  }

  // ---- the ids ----

  /** The id of a field: section and field name, except for the four resolver flags of the dns
      model, which go by the service they belong to. */
  lemma FieldIds(s: string, f: string)
    ensures Render(FieldAnchorOf("dns", "dnsmasq_enabled")) == "field-" + "dns" + "-" + "enable"
    ensures Render(FieldAnchorOf("dns", "dnsmasq_port")) == "field-" + "dns" + "-" + "port"
    ensures Render(FieldAnchorOf("dns", "unbound_enabled")) == "field-" + "unbound" + "-" + "enable"
    ensures Render(FieldAnchorOf("dns", "unbound_port")) == "field-" + "unbound" + "-" + "port"
    ensures s != "dns" || f !in ["dnsmasq_enabled", "dnsmasq_port", "unbound_enabled", "unbound_port"] ==>
      Render(FieldAnchorOf(s, f)) == "field-" + s + "-" + f
    ensures forall kind, key :: Render(RowAnchor(kind, key)) == "xref-" + kind + "-" + key
  {}
}
