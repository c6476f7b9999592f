/** Reading one anchor straight from a snapshot (`resolve_anchor_value`). */
module Resolver {
  import opened Basics
  import opened Json
  import opened Ordering
  import opened Anchors
  import opened AnchorLog
  import opened RowReplay
  import opened SingleReplay
  import opened LogReplay

  datatype Resolved = Row(fields: Dict) | Text(text: string)

  /** The id string the projector writes and the viewer asks for. */
  function Render(x: Anchor): string {
    match x
    case RowAnchor(kind, key) => "xref-" + kind + "-" + key
    case FieldAnchor(scope, tag) => "field-" + scope + "-" + tag
  }

  // ---- the anchor regex ----

  datatype Namespace = Xref | Field | Section
  datatype Parsed = Parsed(namespace: Namespace, scope: string, tail: Option<string>)

  predicate WordChar(c: char) { 'A' <= c <= 'Z' || 'a' <= c <= 'z' || '0' <= c <= '9' || c == '_' }

  predicate IsWord(s: string) { forall i | 0 <= i < |s| :: WordChar(s[i]) }

  /** How many word characters the string starts with. */
  function WordLength(s: string): (n: nat)
    ensures n <= |s| && IsWord(s[..n]) && (n < |s| ==> !WordChar(s[n]))
  {
    if s == [] || !WordChar(s[0]) then 0
    else
      var n := 1 + WordLength(s[1..]);
      assert forall i | 1 <= i < n :: s[i] == s[1..][i - 1];
      n
  }

  /** `$` also matches just before one trailing newline. */
  function Chomp(s: string): string {
    if s != [] && s[|s| - 1] == '\n' then s[..|s| - 1] else s
  }

  /** ([A-Za-z0-9_]+?)(?:-(.+))?$ after the namespace: a word, then nothing or a dash and
      a non-empty rest without newlines. */
  function ParseScope(namespace: Namespace, rest: string): Option<Parsed> {
    var n := WordLength(rest);
    if n == 0 then None
    else if n == |rest| then Some(Parsed(namespace, rest, None))
    else if rest[n] == '-' && n + 1 < |rest| && '\n' !in rest[n + 1..]
    then Some(Parsed(namespace, rest[..n], Some(rest[n + 1..])))
    else None
  }

  function ParseAnchor(id: string): Option<Parsed> {
    var s := Chomp(id);
    if "xref-" <= s then ParseScope(Xref, s[5..])
    else if "field-" <= s then ParseScope(Field, s[6..])
    else if "section-" <= s then ParseScope(Section, s[8..])
    else None
  }

  lemma ParseScopeOf(namespace: Namespace, scope: string, tail: string)
    requires scope != [] && IsWord(scope) && tail != [] && '\n' !in tail
    ensures ParseScope(namespace, scope + "-" + tail) == Some(Parsed(namespace, scope, Some(tail)))
  {
    var rest := scope + "-" + tail;
    var n := WordLength(rest);
    assert rest[|scope|] == '-' && forall i | 0 <= i < |scope| :: rest[i] == scope[i];
    assert n == |scope|;
    assert rest[..|scope|] == scope && rest[|scope| + 1..] == tail;
  }

  lemma NoChomp(prefix: string, rest: string, c: char)
    requires rest != [] && rest[|rest| - 1] == c && c != '\n'
    ensures Chomp(prefix + rest) == prefix + rest && (prefix + rest)[..|prefix|] == prefix
    ensures (prefix + rest)[|prefix|..] == rest
  {}

  lemma ParseRow(kind: string, key: string)
    requires kind != [] && IsWord(kind) && key != [] && '\n' !in key
    ensures ParseAnchor("xref-" + (kind + "-" + key)) == Some(Parsed(Xref, kind, Some(key)))
  {
    hide ParseScope; hide IsWord;
    NoChomp("xref-", kind + "-" + key, key[|key| - 1]);
    ParseScopeOf(Xref, kind, key);
  }

  lemma ParseField(scope: string, tag: string)
    requires scope != [] && IsWord(scope) && tag != [] && '\n' !in tag
    ensures ParseAnchor("field-" + (scope + "-" + tag)) == Some(Parsed(Field, scope, Some(tag)))
  {
    hide ParseScope; hide IsWord;
    assert ("field-" + (scope + "-" + tag))[0] == 'f';
    NoChomp("field-", scope + "-" + tag, tag[|tag| - 1]);
    ParseScopeOf(Field, scope, tag);
  }

  /** Rendering and parsing are inverse, so an id names one anchor. */
  lemma ParseRender(x: Anchor)
    requires match x
      case RowAnchor(kind, key) => kind != [] && IsWord(kind) && key != [] && '\n' !in key
      case FieldAnchor(scope, tag) => scope != [] && IsWord(scope) && tag != [] && '\n' !in tag
    ensures ParseAnchor(Render(x)) ==
      match x
      case RowAnchor(kind, key) => Some(Parsed(Xref, kind, Some(key)))
      case FieldAnchor(scope, tag) => Some(Parsed(Field, scope, Some(tag)))
  {
    hide ParseAnchor; hide IsWord;
    match x
    case RowAnchor(kind, key) =>
      ParseRow(kind, key);
      assert Render(x) == "xref-" + (kind + "-" + key);
    case FieldAnchor(scope, tag) =>
      ParseField(scope, tag);
      assert Render(x) == "field-" + (scope + "-" + tag);
  }

  /** Only such ids parse: a namespace, a word, and a non-empty rest or nothing, with at most one
      trailing newline. */
  lemma ParsesOnly(id: string, p: Parsed)
    requires ParseAnchor(id) == Some(p)
    ensures p.scope != "" && IsWord(p.scope)
    ensures var body := NamespacePrefix(p.namespace) + (p.scope + match p.tail case None => "" case Some(t) => "-" + t);
      id == body || id == body + "\n"
    ensures p.tail.Some? ==> p.tail.value != "" && '\n' !in p.tail.value
  {
    hide ParseScope; hide Chomp; hide IsWord;
    var s := Chomp(id);
    Chomped(id);
    if "xref-" <= s {
      ParsesScopeOnly(Xref, s[5..], p);
    } else if "field-" <= s {
      ParsesScopeOnly(Field, s[6..], p);
    } else {
      ParsesScopeOnly(Section, s[8..], p);
    }
    assert s == NamespacePrefix(p.namespace) + s[|NamespacePrefix(p.namespace)|..];
  }

  function NamespacePrefix(namespace: Namespace): string {
    match namespace
    case Xref => "xref-"
    case Field => "field-"
    case Section => "section-"
  }

  lemma Chomped(id: string)
    ensures id == Chomp(id) || id == Chomp(id) + "\n"
  {}

  lemma ParsesScopeOnly(namespace: Namespace, rest: string, p: Parsed)
    requires ParseScope(namespace, rest) == Some(p)
    ensures p.namespace == namespace && p.scope != "" && IsWord(p.scope)
    ensures rest == p.scope + (match p.tail case None => "" case Some(t) => "-" + t)
    ensures p.tail.Some? ==> p.tail.value != "" && '\n' !in p.tail.value
  {
    var n := WordLength(rest);
    if n < |rest| { assert rest == rest[..n] + ("-" + rest[n + 1..]); } else { assert rest == rest + ""; }
  }

  // ---- resolution ----

  /** `_stringify`; repr stands for str() of numbers and of nested models. */
  function Stringify(v: Json, repr: Json -> string): Option<string> {
    match v
    case Null => None
    case Bool(b) => Some(if b then "yes" else "no")
    case Str(s) => Some(s)
    case Arr(items) => Some(JoinItems(items, repr))
    case _ => Some(repr(v))
  }

  function JoinItems(items: seq<Json>, repr: Json -> string): string {
    if items == [] then ""
    else
      var head := match Stringify(items[0], repr) case None => "" case Some(t) => t;
      if |items| == 1 then head else head + ", " + JoinItems(items[1..], repr)
  }

  function FirstRow(rows: seq<Dict>, spec: RowSpec, wanted: string): Option<Dict> {
    if rows == [] then None
    else
      var candidate := Get(rows[0], spec.anchorField);
      if candidate != Null && Safe(KeyText(candidate)) == wanted then Some(rows[0])
      else FirstRow(rows[1..], spec, wanted)
  }

  function ResolveRow(cfg: Config, specs: seq<RowSpec>, kind: string, tail: string): Option<Resolved> {
    match FindSpec(specs, kind)
    case None => None
    case Some(spec) =>
      match FirstRow(RowsOf(cfg, spec.section), spec, Safe(tail))
      case None => None
      case Some(r) => Some(Row(r))
  }

  function ResolveField(cfg: Config, scope: string, tail: string, repr: Json -> string): Option<Resolved> {
    var (section, field) := Unscope(scope, tail);
    if section !in SINGLETONS || section !in cfg.singles then None
    else
      match Stringify(Get(cfg.singles[section], field), repr)
      case None => None
      case Some(t) => Some(Text(t))
  }

  function ResolveSection(cfg: Config, scope: string): Option<Resolved> {
    var section := if scope == "unbound" then "dns" else scope;
    if section in SINGLETONS && section in cfg.singles then Some(Row(cfg.singles[section])) else None
  }

  /** `resolve_anchor_value` without the package paths. */
  function Resolve(cfg: Config, id: string, repr: Json -> string): Option<Resolved> {
    match ParseAnchor(id)
    case None => None
    case Some(p) =>
      match p.namespace
      case Section => ResolveSection(cfg, p.scope)
      case Field => if p.tail == None then None else ResolveField(cfg, p.scope, p.tail.value, repr)
      case Xref => if p.tail == None then None else ResolveRow(cfg, ROW_SPECS, p.scope, p.tail.value)
  }

  // ---- agreement with enumeration ----

  /** Sanitised keys are non-empty and tell the rows of the section apart. */
  ghost predicate DistinctIn(spec: RowSpec, rows: seq<Dict>) {
    && (forall r | r in rows && AnchorOf(spec, r).Some? :: AnchorOf(spec, r).value.key != "")
    && (forall i, j | 0 <= i < j < |rows| && AnchorOf(spec, rows[i]).Some? ::
          AnchorOf(spec, rows[i]) != AnchorOf(spec, rows[j]))
  }

  ghost predicate DistinctAnchors(cfg: Config, specs: seq<RowSpec>) {
    forall spec | spec in specs :: DistinctIn(spec, RowsOf(cfg, spec.section))
  }

  /** Field names are attribute names of the section models. */
  ghost predicate NamedFields(cfg: Config, sections: seq<string>) {
    forall s, f | s in sections && s in cfg.singles && f in cfg.singles[s] :: NamedField(s, f)
  }

  predicate NamedField(s: string, f: string) { LegalField(s, f) && f != "" && '\n' !in f }

  lemma EarlyKindIsWord(i: nat)
    requires i < 7
    ensures ROW_SPECS[i].kind != "" && IsWord(ROW_SPECS[i].kind)
  {}

  lemma MiddleKindIsWord(i: nat)
    requires 7 <= i < 14
    ensures ROW_SPECS[i].kind != "" && IsWord(ROW_SPECS[i].kind)
  {}

  lemma LateKindIsWord(i: nat)
    requires 14 <= i < |ROW_SPECS|
    ensures ROW_SPECS[i].kind != "" && IsWord(ROW_SPECS[i].kind)
  {}

  lemma KindIsWord(i: nat)
    requires i < |ROW_SPECS|
    ensures ROW_SPECS[i].kind != "" && IsWord(ROW_SPECS[i].kind)
  {
    hide IsWord;
    if i < 7 { EarlyKindIsWord(i); } else if i < 14 { MiddleKindIsWord(i); } else { LateKindIsWord(i); }
  }

  lemma SingletonIsWord(i: nat)
    requires i < |SINGLETONS|
    ensures SINGLETONS[i] != "" && IsWord(SINGLETONS[i])
  {}

  lemma SafeHasNoNewline(key: string)
    ensures '\n' !in Safe(key)
  {}

  /** The first row with the anchor, None when there is none. */
  ghost function FirstWith(rows: seq<Dict>, spec: RowSpec, x: Anchor): Option<Dict> {
    if rows == [] then None
    else if AnchorOf(spec, rows[0]) == Some(x) then Some(rows[0])
    else FirstWith(rows[1..], spec, x)
  }

  lemma {:induction false} FirstRowIsFirstWith(rows: seq<Dict>, spec: RowSpec, x: Anchor)
    requires x.RowAnchor? && x.kind == spec.kind
    ensures FirstRow(rows, spec, x.key) == FirstWith(rows, spec, x)
  {
    if rows != [] { FirstRowIsFirstWith(rows[1..], spec, x); }
  }

  lemma {:induction false} FirstWithFound(rows: seq<Dict>, spec: RowSpec, x: Anchor)
    ensures match FirstWith(rows, spec, x)
      case None => forall r | r in rows :: AnchorOf(spec, r) != Some(x)
      case Some(r) => r in rows && AnchorOf(spec, r) == Some(x)
  {
    if rows != [] {
      FirstWithFound(rows[1..], spec, x);
      assert rows == [rows[0]] + rows[1..];
    }
  }

  /** A key the sanitiser leaves alone, as every key in an anchor is. */
  predicate Sanitised(x: Anchor) { x.RowAnchor? ==> Safe(x.key) == x.key }

  /** What the resolver returns at any row anchor, duplicates or not: the first row that has it. An
      empty key is no anchor id, so it resolves to nothing. */
  lemma ResolvesFirst(cfg: Config, spec: RowSpec, x: Anchor, repr: Json -> string)
    requires spec in ROW_SPECS && x.RowAnchor? && x.kind == spec.kind && Sanitised(x)
    ensures Resolve(cfg, Render(x), repr) ==
            if x.key == "" then None
            else match FirstWith(RowsOf(cfg, spec.section), spec, x) case None => None case Some(r) => Some(Row(r))
  {
    hide ParseAnchor; hide Render; hide FirstRow; hide FirstWith; hide FindSpec; hide Safe;
    RowIdParses(spec, x);
    SpecByKind(spec);
    FirstRowIsFirstWith(RowsOf(cfg, spec.section), spec, x);
  }

  lemma RowIdParses(spec: RowSpec, x: Anchor)
    requires spec in ROW_SPECS && x.RowAnchor? && x.kind == spec.kind && Sanitised(x)
    ensures ParseAnchor(Render(x)) == if x.key == "" then None else Some(Parsed(Xref, spec.kind, Some(x.key)))
  {
    hide ParseAnchor; hide Render; hide Safe;
    var s :| 0 <= s < |ROW_SPECS| && ROW_SPECS[s] == spec;
    KindIsWord(s);
    if x.key == "" {
      EmptyKeyParses(spec.kind);
      assert Render(x) == "xref-" + (x.kind + "-") by { RenderEmpty(x); }
    } else {
      SafeHasNoNewline(x.key);
      ParseRender(x);
    }
  }

  lemma RenderEmpty(x: Anchor)
    requires x.RowAnchor? && x.key == ""
    ensures Render(x) == "xref-" + (x.kind + "-")
  {
    assert Render(x) == "xref-" + x.kind + "-" + "";
  }

  lemma EmptyKeyParses(kind: string)
    requires kind != [] && IsWord(kind)
    ensures ParseAnchor("xref-" + (kind + "-")) == None
  {
    hide IsWord; hide ParseScope;
    NoChomp("xref-", kind + "-", '-');
    EmptyTail(kind);
  }

  lemma EmptyTail(kind: string)
    requires kind != [] && IsWord(kind)
    ensures ParseScope(Xref, kind + "-") == None
  {
    var rest := kind + "-";
    var n := WordLength(rest);
    assert rest[|kind|] == '-' && forall i | 0 <= i < |kind| :: rest[i] == kind[i];
    assert n == |kind|;
  }

  lemma {:induction false} FirstWithOnly(rows: seq<Dict>, spec: RowSpec, i: nat)
    requires i < |rows| && DistinctIn(spec, rows) && AnchorOf(spec, rows[i]).Some?
    ensures FirstWith(rows, spec, AnchorOf(spec, rows[i]).value) == Some(rows[i])
  {
    hide AnchorOf;
    if i > 0 {
      assert AnchorOf(spec, rows[0]) != AnchorOf(spec, rows[i]) by {
        if AnchorOf(spec, rows[0]).Some? { assert AnchorOf(spec, rows[0]) != AnchorOf(spec, rows[i]); }
      }
      FirstWithOnly(rows[1..], spec, i - 1);
    }
  }

  lemma AnchorIsSanitised(spec: RowSpec, r: Dict, x: Anchor)
    requires AnchorOf(spec, r) == Some(x)
    ensures x.RowAnchor? && x.kind == spec.kind && Sanitised(x)
  {
    SafeIdempotent(KeyText(Get(r, spec.anchorField)));
  }

  /** Resolving the id of an enumerated row returns that row, when the keys of its own kind are
      distinct. */
  lemma EnumeratedRowResolves(cfg: Config, spec: RowSpec, r: Dict, x: Anchor, repr: Json -> string)
    requires spec in ROW_SPECS && DistinctIn(spec, RowsOf(cfg, spec.section))
    requires r in RowsOf(cfg, spec.section) && AnchorOf(spec, r) == Some(x)
    ensures Resolve(cfg, Render(x), repr) == Some(Row(r))
  {
    hide Resolve; hide AnchorOf; hide FirstWith;
    var rows := RowsOf(cfg, spec.section);
    var i :| 0 <= i < |rows| && rows[i] == r;
    AnchorIsSanitised(spec, r, x);
    ResolvesFirst(cfg, spec, x, repr);
    FirstWithOnly(rows, spec, i);
  }

  /** Resolving the id of an enumerated field returns its value as text. */
  lemma EnumeratedFieldResolves(cfg: Config, s: string, f: string, repr: Json -> string)
    requires NamedField(s, f) && s in SINGLETONS && s in cfg.singles && f in cfg.singles[s]
    ensures Resolve(cfg, Render(FieldAnchorOf(s, f)), repr) ==
            match Stringify(cfg.singles[s][f], repr) case None => None case Some(t) => Some(Text(t))
  {
    hide ParseAnchor; hide Render; hide Stringify;
    FieldAnchorShape(s, f);
    AliasesInverse(s, f);
    ParseRender(FieldAnchorOf(s, f));
  }

  lemma RowsDistinct(cfg: Config, specs: seq<RowSpec>, spec: RowSpec)
    requires DistinctAnchors(cfg, specs) && spec in specs
    ensures DistinctIn(spec, RowsOf(cfg, spec.section))
  {}

  lemma FieldNamed(cfg: Config, sections: seq<string>, s: string, f: string)
    requires NamedFields(cfg, sections) && s in sections && s in cfg.singles && f in cfg.singles[s]
    ensures NamedField(s, f)
  {}

  lemma FieldAnchorShape(s: string, f: string)
    requires s in SINGLETONS && f != "" && '\n' !in f
    ensures FieldAnchorOf(s, f) == FieldAnchor(Rescope(s, f).0, Rescope(s, f).1)
    ensures Rescope(s, f).0 != "" && IsWord(Rescope(s, f).0) && Rescope(s, f).1 != "" && '\n' !in Rescope(s, f).1
  {
    var i :| 0 <= i < |SINGLETONS| && SINGLETONS[i] == s;
    SingletonIsWord(i);
    assert IsWord("dns") && IsWord("unbound");
  }

  /** Every seeded event resolves to the value it carries. */
  lemma SeedResolves(cfg: Config, e: Event, repr: Json -> string)
    requires DistinctAnchors(cfg, ROW_SPECS) && NamedFields(cfg, SINGLETONS) && e in Seed(cfg)
    ensures Resolve(cfg, Render(e.anchor), repr) ==
            if e.anchor.RowAnchor? then (if e.value.Obj? then Some(Row(e.value.fields)) else None)
            else match Stringify(e.value, repr) case None => None case Some(t) => Some(Text(t))
    ensures e.anchor.RowAnchor? ==> e.value.Obj?
  {
    hide Resolve; hide Stringify; hide DistinctAnchors; hide NamedFields; hide AnchorOf; hide Flatten;
    if e in Flatten(SeedRows(cfg, ROW_SPECS)) {
      var spec := SeededRow(cfg, ROW_SPECS, e);
      RowsDistinct(cfg, ROW_SPECS, spec);
      EnumeratedRowResolves(cfg, spec, e.value.fields, e.anchor, repr);
      AnchorKind(spec, e.value.fields, e.anchor);
    } else {
      var s, f := SeededSingle(cfg, SINGLETONS, e);
      FieldNamed(cfg, SINGLETONS, s, f);
      EnumeratedFieldResolves(cfg, s, f, repr);
    }
  }

  lemma SeededRow(cfg: Config, specs: seq<RowSpec>, e: Event) returns (spec: RowSpec)
    requires e in Flatten(SeedRows(cfg, specs))
    ensures spec in specs && e.value.Obj? && e.value.fields in RowsOf(cfg, spec.section)
    ensures AnchorOf(spec, e.value.fields) == Some(e.anchor)
  {
    var rows := SeedRows(cfg, specs);
    FlattenMember(rows, e);
    var i :| 0 <= i < |rows| && e in rows[i];
    spec := specs[i];
    RowEventsMember(spec, RowsOf(cfg, spec.section), Added, e);
  }

  lemma SeededSingle(cfg: Config, sections: seq<string>, e: Event) returns (s: string, f: string)
    requires e in Flatten(SeedSingles(cfg, sections))
    ensures s in sections && s in cfg.singles && f in cfg.singles[s] && e.anchor == FieldAnchorOf(s, f)
    ensures e.value == cfg.singles[s][f]
  {
    var singles := SeedSingles(cfg, sections);
    FlattenMember(singles, e);
    var i :| 0 <= i < |singles| && e in singles[i];
    s := sections[i];
    SeededField(cfg, s, e);
    f :| f in cfg.singles[s] && e.anchor == FieldAnchorOf(s, f) && e.value == cfg.singles[s][f];
  }

  lemma SeededField(cfg: Config, s: string, e: Event)
    requires e in SeedSingle(cfg, s)
    ensures s in cfg.singles
    ensures exists f :: f in cfg.singles[s] && e.anchor == FieldAnchorOf(s, f) && e.value == cfg.singles[s][f]
  {
    var whole := cfg.singles[s];
    var keys := SortedKeys(whole.Keys);
    WholeEventsMember(s, whole, keys, Added, e);
    var f :| f in keys && '.' !in f && e == Event(FieldAnchorOf(s, f), Added, Get(whole, f));
    assert f in Elements(keys);
  }

  lemma AnchorKind(spec: RowSpec, r: Dict, x: Anchor)
    requires AnchorOf(spec, r) == Some(x)
    ensures x.RowAnchor? && x.kind == spec.kind
  {}

  // ---- agreement with the index ----

  /** An index that is right at a row anchor, against the resolver: the anchor resolves exactly
      when it is in the index (and is an id at all). The resolver returns the first row that has
      it, the index the last, so they show the same exactly when those two agree. */
  lemma ResolverAgainstIndex(m: Index, cfg: Config, spec: RowSpec, x: Anchor, repr: Json -> string)
    requires spec in ROW_SPECS && x.RowAnchor? && x.kind == spec.kind && Sanitised(x) && Lookup(m, x) == ValueAt(cfg, x)
    ensures Resolve(cfg, Render(x), repr) == None <==> Lookup(m, x) == None || x.key == ""
    ensures x.key != "" && Lookup(m, x) != None ==>
      var rows := RowsOf(cfg, spec.section);
      && FirstWith(rows, spec, x).Some? && LastRow(rows, spec, x).Some?
      && Resolve(cfg, Render(x), repr) == Some(Row(FirstWith(rows, spec, x).value))
      && Lookup(m, x) == Some(Norm(Obj(LastRow(rows, spec, x).value)))
  {
    hide Resolve; hide AnchorOf; hide FirstWith; hide LastSuch; hide FindSpec; hide Safe; hide Sanitised;
    var rows := RowsOf(cfg, spec.section);
    ResolvesFirst(cfg, spec, x, repr);
    SpecByKind(spec);
    FirstWithFound(rows, spec, x);
    LastWithFound(rows, spec, x);
  }

  lemma LastWithFound(rows: seq<Dict>, spec: RowSpec, x: Anchor)
    ensures match LastRow(rows, spec, x)
      case None => forall r | r in rows :: AnchorOf(spec, r) != Some(x)
      case Some(r) => r in rows && AnchorOf(spec, r) == Some(x)
  {
    hide AnchorOf;
    LastSuchIsLast(rows, (r: Dict) => AnchorOf(spec, r) == Some(x));
  }

  /** With distinct keys of its kind, a row anchor resolves to the row the index holds. */
  lemma ResolverMatchesIndex(m: Index, cfg: Config, spec: RowSpec, r: Dict, x: Anchor, repr: Json -> string)
    requires spec in ROW_SPECS && DistinctIn(spec, RowsOf(cfg, spec.section)) && Lookup(m, x) == ValueAt(cfg, x)
    requires r in RowsOf(cfg, spec.section) && AnchorOf(spec, r) == Some(x)
    ensures Resolve(cfg, Render(x), repr) == Some(Row(r)) && Lookup(m, x) == Some(Norm(Obj(r)))
  {
    hide Resolve; hide AnchorOf; hide LastSuch; hide FindSpec; hide Safe; hide Sanitised;
    EnumeratedRowResolves(cfg, spec, r, x, repr);
    AnchorIsSanitised(spec, r, x);
    SpecByKind(spec);
    OnlyLast(spec, RowsOf(cfg, spec.section), r, x);
  }

  lemma OnlyLast(spec: RowSpec, rows: seq<Dict>, r: Dict, x: Anchor)
    requires DistinctIn(spec, rows) && r in rows && AnchorOf(spec, r) == Some(x)
    ensures LastRow(rows, spec, x) == Some(r)
  {
    hide AnchorOf;
    LastSuchIsLast(rows, (q: Dict) => AnchorOf(spec, q) == Some(x));
  }

  /** A field anchor resolves exactly when it is in the index. */
  lemma FieldResolvesIffIndexed(m: Index, cfg: Config, s: string, f: string, repr: Json -> string)
    requires s in SINGLETONS && NamedField(s, f) && Lookup(m, FieldAnchorOf(s, f)) == ValueAt(cfg, FieldAnchorOf(s, f))
    ensures Resolve(cfg, Render(FieldAnchorOf(s, f)), repr) == None <==> Lookup(m, FieldAnchorOf(s, f)) == None
    ensures s in cfg.singles && f in cfg.singles[s] && cfg.singles[s][f] != Null ==>
      && Lookup(m, FieldAnchorOf(s, f)) == Some(Norm(cfg.singles[s][f]))
      && Resolve(cfg, Render(FieldAnchorOf(s, f)), repr) == Some(Text(Stringify(cfg.singles[s][f], repr).value))
  {
    hide ParseAnchor; hide Render; hide Norm;
    FieldAnchorShape(s, f);
    AliasesInverse(s, f);
    FieldAnchorValue(cfg, s, f);
    ParseRender(FieldAnchorOf(s, f));
  }
}
