/** Anchor ids, their tables and the value an anchor has in one snapshot. */
module Anchors {
  import opened Basics
  import opened Json

  /** One parsed configuration: row sections as lists of dumped rows, singleton
      sections as a dumped model when the section is present. */
  datatype Config = Config(rows: map<string, seq<Dict>>, singles: map<string, Dict>)

  /** xref-{kind}-{key} and field-{scope}-{tag}. */
  datatype Anchor = RowAnchor(kind: string, key: string) | FieldAnchor(scope: string, tag: string)

  /** One line of SECTION_SPEC. */
  datatype RowSpec = RowSpec(section: string, kind: string, anchorField: string, diffField: string)

  const ROW_SPECS: seq<RowSpec> := [
    RowSpec("firewall_rules", "rule", "key", "key"),
    RowSpec("nat_rules", "nat", "key", "key"),
    RowSpec("aliases", "alias", "name", "name"),
    RowSpec("interfaces", "interface", "key", "key"),
    RowSpec("vlans", "vlan", "vlanif", "key"),
    RowSpec("gateways", "gateway", "name", "name"),
    RowSpec("gateway_groups", "gateway_group", "name", "name"),
    RowSpec("schedules", "schedule", "name", "name"),
    RowSpec("certificate_authorities", "ca", "refid", "refid"),
    RowSpec("certificates", "cert", "refid", "refid"),
    RowSpec("crls", "crl", "refid", "refid"),
    RowSpec("authservers", "authserver", "name", "name"),
    RowSpec("openvpn_servers", "openvpn_server", "vpnid", "vpnid"),
    RowSpec("openvpn_clients", "openvpn_client", "vpnid", "vpnid"),
    RowSpec("openvpn_cscs", "openvpn_csc", "common_name", "common_name"),
    RowSpec("ipsec_phase1", "ipsec_phase1", "ikeid", "ikeid"),
    RowSpec("ipsec_phase2", "ipsec_phase2", "uniqid", "uniqid"),
    RowSpec("lb_pools", "lb_pool", "name", "name"),
    RowSpec("users", "user", "name", "name"),
    RowSpec("groups", "group", "name", "name"),
    RowSpec("interface_groups", "interface_group", "ifname", "ifname")
  ]

  /** SINGLETON_SPEC: section and scope have the same name in every line. */
  const SINGLETONS: seq<string> := [
    "system", "dns", "hasync", "ntpd", "snmpd", "syslog",
    "notifications", "ups", "ftpproxy", "diag", "theme"
  ]

  predicate SafeChar(c: char) {
    'A' <= c <= 'Z' || 'a' <= c <= 'z' || '0' <= c <= '9' || c == '_' || c == '-'
  }

  /** `_safe`: every other character becomes an underscore. */
  function Safe(key: string): (r: string)
    ensures |r| == |key| && forall i | 0 <= i < |r| :: SafeChar(r[i])
  {
    seq(|key|, i requires 0 <= i < |key| => if SafeChar(key[i]) then key[i] else '_')
  }

  /** ASCII letters, digits, underscore and dash stay; any other character becomes an underscore. */
  lemma SafeMeans(key: string, i: nat)
    requires i < |key|
    ensures var c := key[i] as int;
      Safe(key)[i] as int ==
      if 65 <= c <= 90 || 97 <= c <= 122 || 48 <= c <= 57 || c == 95 || c == 45 then c else 95
  {}

  lemma SafeIdempotent(key: string)
    ensures Safe(Safe(key)) == Safe(key)
  {}

  /** str() of a key column. The row models declare these columns as str or str | None. */
  function KeyText(v: Json): string {
    match v
    case Str(s) => s
    case Null => "None"
    case _ => ""
  }

  function RowsOf(cfg: Config, section: string): seq<Dict> {
    if section in cfg.rows then cfg.rows[section] else []
  }

  function DiffKey(spec: RowSpec): Dict -> string {
    (row: Dict) => KeyText(Get(row, spec.diffField))
  }

  /** `_row_anchor_id`: a row without a key has no anchor. */
  function AnchorOf(spec: RowSpec, row: Dict): Option<Anchor> {
    var raw := Get(row, spec.anchorField);
    if raw == Null then None else Some(RowAnchor(spec.kind, Safe(KeyText(raw))))
  }

  /** `_rescope` without its dotted-path case: where a model field is addressed. */
  function Rescope(section: string, field: string): (string, string) {
    if section == "dns" && field == "dnsmasq_enabled" then ("dns", "enable")
    else if section == "dns" && field == "dnsmasq_port" then ("dns", "port")
    else if section == "dns" && field == "unbound_enabled" then ("unbound", "enable")
    else if section == "dns" && field == "unbound_port" then ("unbound", "port")
    else (section, field)
  }

  /** The resolver's way back: the section a scope reads (`_SINGLETON_PATH`) and the
      field a tag names there (`_FIELD_ALIASES`). */
  function Unscope(scope: string, tag: string): (string, string) {
    var section := if scope == "unbound" then "dns" else scope;
    if scope == "dns" && tag == "enable" then (section, "dnsmasq_enabled")
    else if scope == "dns" && tag == "port" then (section, "dnsmasq_port")
    else if scope == "unbound" && tag == "enable" then (section, "unbound_enabled")
    else if scope == "unbound" && tag == "port" then (section, "unbound_port")
    else (section, tag)
  }

  /** Field names the section models use: no dot, and the dns model has no field that
      is spelt like one of its own aliases. */
  predicate LegalField(section: string, field: string) {
    '.' !in field && !(section == "dns" && (field == "enable" || field == "port"))
  }

  ghost predicate Legal(cfg: Config) {
    forall s, f | s in SINGLETONS && s in cfg.singles && f in cfg.singles[s] :: LegalField(s, f)
  }

  /** The alias tables of the projector and of the resolver are inverse to each other. */
  lemma AliasesInverse(section: string, field: string)
    requires section in SINGLETONS && LegalField(section, field)
    ensures var (scope, tag) := Rescope(section, field); Unscope(scope, tag) == (section, field)
  {}

  function FindSpec(specs: seq<RowSpec>, kind: string): Option<RowSpec> {
    if specs == [] then None
    else if specs[0].kind == kind then Some(specs[0])
    else FindSpec(specs[1..], kind)
  }

  /** The last row satisfying p: later duplicates win. */
  ghost function LastSuch(rows: seq<Dict>, p: Dict -> bool): Option<Dict> {
    if rows == [] then None
    else if p(rows[|rows| - 1]) then Some(rows[|rows| - 1])
    else LastSuch(rows[..|rows| - 1], p)
  }

  ghost function LastRow(rows: seq<Dict>, spec: RowSpec, x: Anchor): Option<Dict> {
    LastSuch(rows, (r: Dict) => AnchorOf(spec, r) == Some(x))
  }

  ghost function RowValue(rows: seq<Dict>, spec: RowSpec, x: Anchor): Option<Json> {
    match LastRow(rows, spec, x)
    case None => None
    case Some(r) => Some(Norm(Obj(r)))
  }

  /** The value an anchor has in a snapshot, read straight off the snapshot. None counts
      as absent, and values are compared with None entries dropped. */
  ghost function ValueAt(cfg: Config, x: Anchor): Option<Json> {
    match x
    case RowAnchor(kind, _) =>
      (match FindSpec(ROW_SPECS, kind)
       case None => None
       case Some(spec) => RowValue(RowsOf(cfg, spec.section), spec, x))
    case FieldAnchor(scope, tag) =>
      var (section, field) := Unscope(scope, tag);
      if section in SINGLETONS && section in cfg.singles && Rescope(section, field) == (scope, tag)
      then Present(Get(cfg.singles[section], field)) else None
  }

  function Present(v: Json): Option<Json> {
    if v == Null then None else Some(Norm(v))
  }

  /** Every kind names one section. */
  lemma KindsDistinct(i: nat, j: nat)
    requires i < j < |ROW_SPECS|
    ensures ROW_SPECS[i].kind != ROW_SPECS[j].kind
  {}

  lemma SpecFound(i: nat)
    requires i < |ROW_SPECS|
    ensures FindSpec(ROW_SPECS, ROW_SPECS[i].kind) == Some(ROW_SPECS[i])
  {
    forall j, k | 0 <= j < k < |ROW_SPECS| ensures ROW_SPECS[j].kind != ROW_SPECS[k].kind { KindsDistinct(j, k); }
    FindIn(ROW_SPECS, i);
  }

  lemma {:induction false} FindIn(specs: seq<RowSpec>, i: nat)
    requires i < |specs| && forall j, k | 0 <= j < k < |specs| :: specs[j].kind != specs[k].kind
    ensures FindSpec(specs, specs[i].kind) == Some(specs[i])
  {
    if i > 0 { FindIn(specs[1..], i - 1); }
  }
}
