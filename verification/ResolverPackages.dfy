/** Package anchors: enumerated below `installedpackages` and resolved by dotted descent. */
module ResolverPackages {
  import opened Basics
  import opened Json
  import opened Ordering
  import opened Anchors
  import opened AnchorLog
  import opened SingleReplay
  import opened LogReplay
  import opened Resolver

  /** A configuration with its `installedpackages` model, Null when absent. */
  datatype Full = Full(base: Config, packages: Json)

  /** PACKAGE_SINGLETON_SPEC: package and scope have the same name in every line. */
  const PACKAGES: seq<string> := ["avahi", "miniupnpd", "openvpn_client_export", "telegraf"]

  /** PACKAGE_ROW_SPEC: its one line. */
  const BACKENDS := RowSpec("haproxy.backends", "haproxy_backend", "name", "name")

  // ---- dotted descent ----

  function DotIndex(s: string): (n: nat)
    ensures n <= |s| && (forall i | 0 <= i < n :: s[i] != '.') && (n < |s| ==> s[n] == '.')
  {
    if s == [] || s[0] == '.' then 0 else 1 + DotIndex(s[1..])
  }

  /** str.split("."). */
  function SplitDots(s: string): seq<string> {
    var n := DotIndex(s);
    if n == |s| then [s] else [s[..n]] + SplitDots(s[n + 1..])
  }

  /** `_descend`: None when a segment is missing. */
  function Descend(v: Json, path: seq<string>): Json
    decreases |path|
  {
    if path == [] then v
    else Descend(if v.Obj? then Get(v.fields, path[0]) else Null, path[1..])
  }

  lemma SplitOneDot(head: string, rest: string)
    requires '.' !in head
    ensures SplitDots(head + "." + rest) == [head] + SplitDots(rest)
  {
    var s := head + "." + rest;
    assert s[|head|] == '.' && forall i | 0 <= i < |head| :: s[i] == head[i] && head[i] in head;
    assert DotIndex(s) == |head|;
    assert s[..|head|] == head && s[|head| + 1..] == rest;
  }

  lemma SplitNoDot(s: string)
    requires '.' !in s
    ensures SplitDots(s) == [s]
  {
    assert forall i | 0 <= i < |s| :: s[i] in s;
    assert DotIndex(s) == |s|;
  }

  /** What the resolver descends into: the attribute tree with its package branch. */
  function Root(full: Full): Json { Obj(map[INSTALLED := full.packages]) }

  const INSTALLED := "installedpackages"

  function PackagePath(pkg: string): string { INSTALLED + "." + pkg }

  function BackendsPath(): string { INSTALLED + "." + ("haproxy" + "." + "backends") }

  lemma InstalledHasNoDot()
    ensures '.' !in INSTALLED && '.' !in "haproxy" && '.' !in "backends"
  {}

  /** Descending from the root enters the package model first. */
  lemma DescendsInto(full: Full, path: seq<string>)
    ensures Descend(Root(full), [INSTALLED] + path) == Descend(full.packages, path)
  {
    assert ([INSTALLED] + path)[1..] == path;
  }

  lemma DescendsToPackage(full: Full, pkg: string)
    requires '.' !in pkg
    ensures Descend(Root(full), SplitDots(PackagePath(pkg))) == Descend(full.packages, [pkg])
  {
    hide SplitDots; hide Descend;
    InstalledHasNoDot();
    SplitOneDot(INSTALLED, pkg);
    SplitNoDot(pkg);
    DescendsInto(full, [pkg]);
  }

  lemma DescendsToBackends(full: Full)
    ensures Descend(Root(full), SplitDots(BackendsPath())) == Descend(full.packages, ["haproxy", "backends"])
  {
    hide SplitDots; hide Descend;
    InstalledHasNoDot();
    SplitOneDot(INSTALLED, "haproxy" + "." + "backends");
    SplitOneDot("haproxy", "backends");
    SplitNoDot("backends");
    assert ["haproxy"] + ["backends"] == ["haproxy", "backends"];
    DescendsInto(full, ["haproxy", "backends"]);
  }

  // ---- enumeration ----

  function FieldsOf(v: Json): Option<Dict> { if v.Obj? then Some(v.fields) else None }

  function DictsOf(items: seq<Json>): seq<Dict> {
    if items == [] then [] else (if items[0].Obj? then [items[0].fields] else []) + DictsOf(items[1..])
  }

  function BackendRows(v: Json): seq<Dict> { if v.Arr? then DictsOf(v.items) else [] }

  function PackageEvents(full: Full, pkg: string): seq<Event> {
    match FieldsOf(Descend(full.packages, [pkg]))
    case None => []
    case Some(d) => WholeEvents(pkg, d, SortedKeys(d.Keys), Added)
  }

  function PackageSeeds(full: Full, packages: seq<string>): seq<seq<Event>> {
    seq(|packages|, i requires 0 <= i < |packages| => PackageEvents(full, packages[i]))
  }

  /** `enumerate_anchors` with its package part. */
  function SeedFull(full: Full): seq<Event> {
    Seed(full.base) + Flatten(PackageSeeds(full, PACKAGES))
    + RowEvents(BACKENDS, BackendRows(Descend(full.packages, ["haproxy", "backends"])), Added)
  }

  // ---- resolution ----

  function AsText(v: Json, repr: Json -> string): Option<Resolved> {
    match Stringify(v, repr)
    case None => None
    case Some(t) => Some(Text(t))
  }

  /** `resolve_anchor_value`, package paths included. */
  function ResolveFull(full: Full, id: string, repr: Json -> string): Option<Resolved> {
    match ParseAnchor(id)
    case None => None
    case Some(p) =>
      if p.namespace != Xref && p.scope in PACKAGES then
        match FieldsOf(Descend(Root(full), SplitDots(PackagePath(p.scope))))
        case None => None
        case Some(d) =>
          if p.namespace == Section then Some(Row(d))
          else if p.tail == None then None else AsText(Get(d, p.tail.value), repr)
      else if p.namespace == Xref && p.scope == BACKENDS.kind then
        if p.tail == None then None
        else
          match FirstRow(BackendRows(Descend(Root(full), SplitDots(BackendsPath()))), BACKENDS, Safe(p.tail.value))
          case None => None
          case Some(r) => Some(Row(r))
      else Resolve(full.base, id, repr)
  }

  // ---- agreement ----

  lemma PackageIsWord(pkg: string)
    requires pkg in PACKAGES
    ensures pkg != "" && IsWord(pkg) && '.' !in pkg
  {
    var i :| 0 <= i < |PACKAGES| && PACKAGES[i] == pkg;
  }

  lemma PackageIsNoSection(pkg: string)
    requires pkg in PACKAGES
    ensures pkg !in SINGLETONS && pkg != "dns" && pkg != "unbound"
  {
    var i :| 0 <= i < |PACKAGES| && PACKAGES[i] == pkg;
  }

  lemma PackageAnchor(pkg: string, f: string)
    requires pkg in PACKAGES
    ensures FieldAnchorOf(pkg, f) == FieldAnchor(pkg, f)
  {
    PackageIsNoSection(pkg);
  }

  /** Resolving the id of an enumerated package field returns its value as text. */
  lemma PackageFieldResolves(full: Full, pkg: string, d: Dict, f: string, repr: Json -> string)
    requires pkg in PACKAGES && Descend(full.packages, [pkg]) == Obj(d) && f != "" && '\n' !in f
    ensures ResolveFull(full, Render(FieldAnchor(pkg, f)), repr) == AsText(Get(d, f), repr)
  {
    hide ParseAnchor; hide Render; hide SplitDots; hide Stringify; hide Descend; hide IsWord; hide PackagePath;
    PackageIsWord(pkg);
    ParseRender(FieldAnchor(pkg, f));
    DescendsToPackage(full, pkg);
  }

  lemma BackendKindIsWord()
    ensures IsWord(BACKENDS.kind)
  {}

  /** Resolving the id of an enumerated backend returns the first backend with that id. */
  lemma BackendResolves(full: Full, x: Anchor, repr: Json -> string)
    requires x.RowAnchor? && x.kind == BACKENDS.kind && Sanitised(x) && x.key != ""
    ensures ResolveFull(full, Render(x), repr) ==
            match FirstWith(BackendRows(Descend(full.packages, ["haproxy", "backends"])), BACKENDS, x)
            case None => None
            case Some(r) => Some(Row(r))
  {
    hide ParseAnchor; hide Render; hide SplitDots; hide Descend; hide FirstRow; hide FirstWith; hide Safe; hide IsWord;
    BackendKindIsWord();
    SafeHasNoNewline(x.key);
    ParseRender(x);
    DescendsToBackends(full);
    FirstRowIsFirstWith(BackendRows(Descend(full.packages, ["haproxy", "backends"])), BACKENDS, x);
  }

  lemma KindIsNotBackend(spec: RowSpec)
    requires spec in ROW_SPECS
    ensures spec.kind != BACKENDS.kind
  {
    var i :| 0 <= i < |ROW_SPECS| && ROW_SPECS[i] == spec;
  }

  /** The base sections resolve as before. */
  lemma BaseResolves(full: Full, x: Anchor, p: Parsed, repr: Json -> string)
    requires ParseAnchor(Render(x)) == Some(p) && (p.namespace != Xref ==> p.scope !in PACKAGES)
    requires p.namespace == Xref ==> p.scope != BACKENDS.kind
    ensures ResolveFull(full, Render(x), repr) == Resolve(full.base, Render(x), repr)
  {
    hide ParseAnchor; hide Render; hide Resolve;
  }

  ghost predicate NamedPackages(full: Full) {
    forall pkg, f | pkg in PACKAGES && FieldsOf(Descend(full.packages, [pkg])).Some?
                    && f in FieldsOf(Descend(full.packages, [pkg])).value ::
      f != "" && '\n' !in f
  }

  lemma SeededPackage(full: Full, e: Event) returns (pkg: string, f: string)
    requires e in Flatten(PackageSeeds(full, PACKAGES))
    ensures pkg in PACKAGES && FieldsOf(Descend(full.packages, [pkg])).Some?
    ensures var d := FieldsOf(Descend(full.packages, [pkg])).value;
      f in d && e == Event(FieldAnchorOf(pkg, f), Added, d[f])
  {
    hide Descend;
    var parts := PackageSeeds(full, PACKAGES);
    FlattenMember(parts, e);
    var i :| 0 <= i < |parts| && e in parts[i];
    pkg := PACKAGES[i];
    var d := FieldsOf(Descend(full.packages, [pkg])).value;
    WholeEventsMember(pkg, d, SortedKeys(d.Keys), Added, e);
    f :| f in SortedKeys(d.Keys) && '.' !in f && e == Event(FieldAnchorOf(pkg, f), Added, Get(d, f));
    assert f in Elements(SortedKeys(d.Keys));
  }

  lemma SeededPackageResolves(full: Full, e: Event, repr: Json -> string)
    requires NamedPackages(full) && e in Flatten(PackageSeeds(full, PACKAGES))
    ensures e.anchor.FieldAnchor? && ResolveFull(full, Render(e.anchor), repr) == AsText(e.value, repr)
  {
    hide ResolveFull; hide Render; hide Stringify; hide Descend; hide Flatten;
    var pkg, f := SeededPackage(full, e);
    var d := FieldsOf(Descend(full.packages, [pkg])).value;
    assert f != "" && '\n' !in f;
    PackageAnchor(pkg, f);
    PackageFieldResolves(full, pkg, d, f, repr);
  }

  lemma SeededBackendResolves(full: Full, e: Event, repr: Json -> string)
    requires e in RowEvents(BACKENDS, BackendRows(Descend(full.packages, ["haproxy", "backends"])), Added)
    requires DistinctIn(BACKENDS, BackendRows(Descend(full.packages, ["haproxy", "backends"])))
    ensures e.anchor.RowAnchor? && e.value.Obj?
    ensures ResolveFull(full, Render(e.anchor), repr) == Some(Row(e.value.fields))
  {
    hide ResolveFull; hide Render; hide Descend; hide AnchorOf; hide FirstWith;
    var rows := BackendRows(Descend(full.packages, ["haproxy", "backends"]));
    RowEventsMember(BACKENDS, rows, Added, e);
    var i :| 0 <= i < |rows| && rows[i] == e.value.fields;
    AnchorIsSanitised(BACKENDS, rows[i], e.anchor);
    FirstWithOnly(rows, BACKENDS, i);
    BackendResolves(full, e.anchor, repr);
  }

  /** The resolver and the seed of the base sections, seen through the package paths. */
  lemma SeededBaseResolves(full: Full, e: Event, repr: Json -> string)
    requires DistinctAnchors(full.base, ROW_SPECS) && NamedFields(full.base, SINGLETONS) && e in Seed(full.base)
    ensures ResolveFull(full, Render(e.anchor), repr) == Resolve(full.base, Render(e.anchor), repr)
  {
    hide ResolveFull; hide Resolve; hide Render; hide ParseAnchor; hide Flatten; hide AnchorOf; hide IsWord;
    hide DistinctAnchors; hide NamedFields;
    if e in Flatten(SeedRows(full.base, ROW_SPECS)) {
      var spec := SeededRow(full.base, ROW_SPECS, e);
      AnchorIsSanitised(spec, e.value.fields, e.anchor);
      RowsDistinct(full.base, ROW_SPECS, spec);
      NotEmptyKey(spec, RowsOf(full.base, spec.section), e.value.fields, e.anchor);
      RowIdParses(spec, e.anchor);
      KindIsNotBackend(spec);
      BaseResolves(full, e.anchor, Parsed(Xref, spec.kind, Some(e.anchor.key)), repr);
    } else {
      var s, f := SeededSingle(full.base, SINGLETONS, e);
      FieldNamed(full.base, SINGLETONS, s, f);
      FieldAnchorShape(s, f);
      ParseRender(e.anchor);
      ScopeIsNotPackage(s, f);
      BaseResolves(full, e.anchor, Parsed(Field, Rescope(s, f).0, Some(Rescope(s, f).1)), repr);
    }
  }

  lemma NotEmptyKey(spec: RowSpec, rows: seq<Dict>, r: Dict, x: Anchor)
    requires DistinctIn(spec, rows) && r in rows && AnchorOf(spec, r) == Some(x)
    ensures x.key != ""
  {}

  lemma ScopeIsNotPackage(s: string, f: string)
    requires s in SINGLETONS
    ensures Rescope(s, f).0 !in PACKAGES
  {
    if Rescope(s, f).0 in PACKAGES { PackageIsNoSection(Rescope(s, f).0); }
  }

  /** Every enumerated anchor, packages included, resolves to the value enumerated with it. */
  lemma SeedFullResolves(full: Full, e: Event, repr: Json -> string)
    requires DistinctAnchors(full.base, ROW_SPECS) && NamedFields(full.base, SINGLETONS) && NamedPackages(full)
    requires DistinctIn(BACKENDS, BackendRows(Descend(full.packages, ["haproxy", "backends"])))
    requires e in SeedFull(full)
    ensures e.anchor.RowAnchor? ==> e.value.Obj?
    ensures ResolveFull(full, Render(e.anchor), repr) ==
            if e.anchor.RowAnchor? then (if e.value.Obj? then Some(Row(e.value.fields)) else None)
            else AsText(e.value, repr)
  {
    hide ResolveFull; hide Resolve; hide Render; hide Stringify; hide Flatten; hide Seed; hide PackageSeeds;
    hide RowEvents;
    hide DistinctAnchors; hide NamedFields; hide NamedPackages; hide DistinctIn; hide Descend; hide BackendRows;
    if e in Seed(full.base) {
      SeedResolves(full.base, e, repr);
      SeededBaseResolves(full, e, repr);
    } else if e in Flatten(PackageSeeds(full, PACKAGES)) {
      SeededPackageResolves(full, e, repr);
    } else {
      SeededBackendResolves(full, e, repr);
    }
  }
}
