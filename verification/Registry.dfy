/** The rule registry (internal/rules/custom.go and rules.go; internal/db/custom_rules.go): built-in rules
    with stored overrides, user-defined rules with stored rows, and what a change to one of them does to
    the configuration in effect. Durations are whole nanoseconds. */
module Registry {
  import opened Options
  import opened Selection
  import opened Text
  import Findings

  const SECOND: int := 1_000_000_000
  const MIN_INTERVAL: int := 30 * SECOND
  const MAX_INTERVAL: int := 7 * 24 * 3600 * SECOND
  const MIN_WINDOW: int := 60 * SECOND
  const MAX_WINDOW: int := 30 * 24 * 3600 * SECOND

  /** A parameter value, as JSON text. */
  type Value = string
  type Params = map<string, Value>

  /** A duration field of a request, by what its text is: nothing or only spaces; a duration, plain or with
      spaces around it; or neither. */
  datatype Timing = Blank(empty: bool) | Duration(d: int, plain: bool) | Garbage

  /** time.ParseDuration on the text as it stands, 0 on error. */
  function ParseDuration(t: Timing): int {
    if t.Duration? && t.plain then t.d else 0
  }

  /** parseTiming: trims first; None is an error, 0 means keep. */
  function ParseTiming(t: Timing, min: int, max: int): Option<int> {
    match t
    case Blank(_) => Some(0)
    case Duration(d, _) => if min <= d <= max then Some(d) else None
    case Garbage => None
  }

  datatype Builtin = Builtin(name: string, severity: string, interval: int, window: int, params: Params)

  /** RuleConfig: an update, and an override of a built-in rule. */
  datatype RuleConfig = RuleConfig(enabled: Option<bool>, severity: string, params: Option<Params>, exempt: Option<seq<string>>,
                                   interval: Timing, window: Timing)

  const NO_OVERRIDE := RuleConfig(None, "", None, None, Blank(true), Blank(true))

  datatype Row = Row(name: string, title: string, description: string, kind: string, base: string, sql: string, params: Params,
                     severity: string, interval: int, window: int, enabled: bool, exempt: seq<string>)

  datatype Spec = Spec(name: string, title: string, description: string, kind: string, base: string, sql: string, params: Params,
                       severity: string, interval: Timing, window: Timing, enabled: Option<bool>, exempt: seq<string>)

  /** A rule's configuration after overrides. */
  datatype Effective = Effective(enabled: bool, severity: string, params: Params, exempt: seq<string>, interval: int, window: int)

  // ---- lookup ----

  function FindBuiltin(bs: seq<Builtin>, name: string): (r: Option<Builtin>)
    ensures r.Some? ==> r.value in bs && r.value.name == name
    ensures r == None <==> forall b <- bs :: b.name != name
  {
    if bs == [] then None
    else if bs[0].name == name then Some(bs[0])
    else FindBuiltin(bs[1..], name)
  }

  function FindRow(rs: seq<Row>, name: string): (r: Option<Row>)
    ensures r.Some? ==> r.value in rs && r.value.name == name
    ensures r == None <==> forall x <- rs :: x.name != name
  {
    if rs == [] then None
    else if rs[0].name == name then Some(rs[0])
    else FindRow(rs[1..], name)
  }

  ghost predicate DistinctNames(rs: seq<Row>) {
    forall i, j | 0 <= i < j < |rs| :: rs[i].name != rs[j].name
  }

  lemma {:induction false} FindDistinct(rs: seq<Row>, r: Row)
    requires DistinctNames(rs) && r in rs
    ensures FindRow(rs, r.name) == Some(r)
  {
    if rs[0] != r {
      assert rs == [rs[0]] + rs[1..];
      var i :| 0 <= i < |rs| && rs[i] == r;
      assert rs[0].name != rs[i].name;
      FindDistinct(rs[1..], r);
    }
  }

  // ---- validation ----

  predicate NameChar(c: char) {
    'a' <= c <= 'z' || '0' <= c <= '9' || c == '_'
  }

  /** ^[a-z][a-z0-9_]{1,39}$ */
  predicate NameOk(n: string) {
    2 <= |n| <= 40 && 'a' <= n[0] <= 'z' && forall i | 1 <= i < |n| :: NameChar(n[i])
  }

  predicate Reserved(n: string) {
    n == "custom" || n == "preview" || n == "run"
  }

  function UpperChar(c: char): char {
    if 'a' <= c <= 'z' then (c as int - 32) as char else c
  }

  function ToUpper(s: string): (r: string)
    ensures |r| == |s|
  {
    seq(|s|, i requires 0 <= i < |s| => UpperChar(s[i]))
  }

  /** ValidateRuleSQL on trimmed text. */
  predicate SqlOk(q: string) {
    q != "" && ("SELECT" <= ToUpper(q) || "WITH" <= ToUpper(q)) && ';' !in q
  }

  predicate KnownParams(p: Params, defaults: Params) {
    forall k <- p :: k in defaults
  }

  /** The built-in rules themselves: their own names, timings that custom rules may inherit (the IDS
      pseudo-rule cannot be inherited). */
  ghost predicate CatalogOk(bs: seq<Builtin>) {
    && (forall i, j | 0 <= i < j < |bs| :: bs[i].name != bs[j].name)
    && (forall b <- bs :: b.interval > 0 && b.window > 0 && Findings.SeverityRank(b.severity) > 0)
    && (forall b <- bs | b.name != "ids" :: MIN_INTERVAL <= b.interval <= MAX_INTERVAL && MIN_WINDOW <= b.window <= MAX_WINDOW)
  }

  /** What every custom rule in force satisfies. */
  ghost predicate RowOk(bs: seq<Builtin>, r: Row) {
    && NameOk(r.name) && !Reserved(r.name)
    && MIN_INTERVAL <= r.interval <= MAX_INTERVAL && MIN_WINDOW <= r.window <= MAX_WINDOW
    && Findings.SeverityRank(r.severity) > 0
    && Buildable(bs, r)
    && (r.kind == "sql" ==> r.params == map[] && SqlOk(r.sql))
    && (r.kind == "builtin" ==> r.base != "ids" && KnownParams(r.params, FindBuiltin(bs, r.base).value.params))
  }

  /** buildCustom succeeds. */
  predicate Buildable(bs: seq<Builtin>, r: Row) {
    r.kind == "sql" || (r.kind == "builtin" && FindBuiltin(bs, r.base).Some?)
  }

  function Cleaned(hosts: seq<string>): (r: seq<string>)
    ensures forall h <- r :: h != ""
  {
    if hosts == [] then []
    else
      var rest, h := Cleaned(hosts[..|hosts| - 1]), TrimSpace(hosts[|hosts| - 1]);
      if h != "" then rest + [h] else rest
  }

  /** toRow. */
  function ToRow(bs: seq<Builtin>, s: Spec): Option<Row> {
    var name := TrimSpace(s.name);
    var title := if TrimSpace(s.title) == "" then name else TrimSpace(s.title);
    var kind := TrimSpace(s.kind);
    var given := ToLower(TrimSpace(s.severity));
    var severity := if given == "" then Findings.SEV_WARNING else given;
    var enabled := if s.enabled.Some? then s.enabled.value else true;
    var sql := TrimSpace(s.sql);
    var base := FindBuiltin(bs, TrimSpace(s.base));
    if !NameOk(name) || Reserved(name) || Findings.SeverityRank(severity) == 0 then None
    else if kind == "sql" then
      if !SqlOk(sql) || s.params != map[] then None
      else WithTiming(Row(name, title, TrimSpace(s.description), kind, "", sql, s.params, severity, 60 * SECOND, 600 * SECOND, enabled,
                          Cleaned(s.exempt)), s)
    else if kind == "builtin" then
      if base == None || base.value.name == "ids" || !KnownParams(s.params, base.value.params) then None
      else WithTiming(Row(name, title, TrimSpace(s.description), kind, base.value.name, "", s.params, severity, base.value.interval,
                          base.value.window, enabled, Cleaned(s.exempt)), s)
    else None
  }

  /** The spec's own timing over the defaults already in the row. */
  function WithTiming(r: Row, s: Spec): Option<Row> {
    var iv, win := ParseTiming(s.interval, MIN_INTERVAL, MAX_INTERVAL), ParseTiming(s.window, MIN_WINDOW, MAX_WINDOW);
    if iv == None || win == None then None
    else Some(r.(interval := if iv.value == 0 then r.interval else iv.value, window := if win.value == 0 then r.window else win.value))
  }

  /** What passes validation satisfies every limit, its base's parameters included. */
  lemma ToRowOk(bs: seq<Builtin>, s: Spec)
    requires CatalogOk(bs)
    ensures var r := ToRow(bs, s); r.Some? ==> RowOk(bs, r.value) && r.value.name == TrimSpace(s.name)
  {
    hide TrimSpace, NameOk, SqlOk, ToLower;
    var b := FindBuiltin(bs, TrimSpace(s.base));
  }

  // ---- what a specification gives ----

  /** The letters, digits and underscores of a rule's name: 2 to 40 of them, the first a letter. */
  lemma NameOkIff(n: string)
    ensures NameOk(n)
            <==> 2 <= |n| && |n| <= 40 && 97 <= n[0] as int <= 122
                 && forall i | 0 <= i < |n| :: 97 <= n[i] as int <= 122 || 48 <= n[i] as int <= 57 || n[i] as int == 95
  {
  }

  /** Small letters, codes 97 to 122, become the capitals 32 before them. */
  lemma UpperIs(s: string, i: nat)
    requires i < |s|
    ensures ToUpper(s)[i] as int == s[i] as int - if 97 <= s[i] as int <= 122 then 32 else 0
  {
  }

  /** A timing that may be left out, or must lie within its limits. */
  predicate TimingOk(t: Timing, least: int, most: int) {
    t.Blank? || (t.Duration? && least * 1_000_000_000 <= t.d <= most * 1_000_000_000)
  }

  ghost predicate Given(h: string) {
    TrimSpace(h) != ""
  }

  /** The hosts listed are those of the specification, trimmed and without empty ones, in order. */
  lemma {:induction false} CleanedIs(hosts: seq<string>) returns (given: seq<string>)
    ensures KeptOf(given, hosts, Given) && |Cleaned(hosts)| == |given|
    ensures forall i | 0 <= i < |given| :: Cleaned(hosts)[i] == TrimSpace(given[i])
  {
    hide KeptOf, TrimSpace;
    if hosts == [] {
      given := [];
      KeptNone(Given);
    } else {
      var n := |hosts| - 1;
      given := CleanedIs(hosts[..n]);
      KeptMore(given, hosts[..n], hosts[n], Given);
      assert hosts == hosts[..n] + [hosts[n]];
      given := if Given(hosts[n]) then given + [hosts[n]] else given;
    }
  }

  /** A specification is accepted when its name and severity are, when both timings are blank or within their
      limits (30 seconds to 7 days, a minute to 30 days), and when it is a query that reads, without parameters, or
      names a built-in rule other than "ids" and only parameters of it. */
  lemma AcceptedSpecIff(bs: seq<Builtin>, s: Spec)
    ensures ToRow(bs, s).Some?
            <==> && NameOk(TrimSpace(s.name)) && TrimSpace(s.name) !in {"custom", "preview", "run"}
                 && ToLower(TrimSpace(s.severity)) in {"", "info", "warning", "critical"}
                 && TimingOk(s.interval, 30, 604800) && TimingOk(s.window, 60, 2592000)
                 && var q, base := TrimSpace(s.sql), FindBuiltin(bs, TrimSpace(s.base));
                    if TrimSpace(s.kind) == "sql" then
                      s.params == map[] && ';' !in q && ("SELECT" <= ToUpper(q) || "WITH" <= ToUpper(q))
                    else
                      TrimSpace(s.kind) == "builtin" && base.Some? && base.value.name != "ids" && s.params.Keys <= base.value.params.Keys
  {
    hide TrimSpace, ToLower, NameOk, ToUpper;
  }

  /** The rule an accepted specification gives, in effect: what it says, and the defaults for what it leaves out. A
      query runs every minute over ten; a duplicate starts from its base's timing and parameters. */
  lemma AcceptedSpecGives(bs: seq<Builtin>, s: Spec)
    requires ToRow(bs, s).Some?
    ensures var r := ToRow(bs, s).value;
            && r.name == TrimSpace(s.name) && r.description == TrimSpace(s.description) && r.kind == TrimSpace(s.kind)
            && r.title == (if TrimSpace(s.title) != "" then TrimSpace(s.title) else r.name)
            && r.base == (if r.kind == "builtin" then TrimSpace(s.base) else "")
            && r.sql == (if r.kind == "sql" then TrimSpace(s.sql) else "")
    ensures var e := EffectiveRow(bs, ToRow(bs, s).value);
            && (e.enabled <==> s.enabled == None || s.enabled.value)
            && e.severity == (if ToLower(TrimSpace(s.severity)) == "" then "warning" else ToLower(TrimSpace(s.severity)))
            && e.exempt == Cleaned(s.exempt)
            && (s.interval.Duration? ==> e.interval == s.interval.d) && (s.window.Duration? ==> e.window == s.window.d)
            && if TrimSpace(s.kind) == "sql" then
                 e.params == map[] && (s.interval.Blank? ==> e.interval == 60_000_000_000) && (s.window.Blank? ==> e.window == 600_000_000_000)
               else
                 var b := FindBuiltin(bs, TrimSpace(s.base));
                 && b.Some? && (s.interval.Blank? ==> e.interval == b.value.interval) && (s.window.Blank? ==> e.window == b.value.window)
                 && e.params.Keys == b.value.params.Keys
                 && forall k <- e.params :: e.params[k] == if k in s.params then s.params[k] else b.value.params[k]
  {
    hide TrimSpace, ToLower, NameOk, SqlOk, Cleaned;
  }

  // ---- the configuration in effect ----

  function Overlay(defaults: Params, p: Params): Params {
    map k <- defaults :: if k in p then p[k] else defaults[k]
  }

  function EffectiveRow(bs: seq<Builtin>, r: Row): Effective {
    var base := FindBuiltin(bs, r.base);
    Effective(r.enabled, r.severity, if r.kind == "builtin" && base.Some? then Overlay(base.value.params, r.params) else r.params,
              r.exempt, r.interval, r.window)
  }

  function OverrideOf(cfg: map<string, RuleConfig>, name: string): RuleConfig {
    if name in cfg then cfg[name] else NO_OVERRIDE
  }

  function EffectiveBuiltin(b: Builtin, rc: RuleConfig): Effective {
    Effective(if rc.enabled.Some? then rc.enabled.value else true,
              if Findings.SeverityRank(rc.severity) > 0 then rc.severity else b.severity,
              if rc.params.Some? then Overlay(b.params, rc.params.value) else b.params,
              if rc.exempt.Some? then rc.exempt.value else [],
              if ParseDuration(rc.interval) > 0 then ParseDuration(rc.interval) else b.interval,
              if ParseDuration(rc.window) > 0 then ParseDuration(rc.window) else b.window)
  }

  /** `effective` of whatever a name stands for: built-ins first. */
  function InEffect(bs: seq<Builtin>, custom: seq<Row>, cfg: map<string, RuleConfig>, name: string): Option<Effective> {
    var b, r := FindBuiltin(bs, name), FindRow(custom, name);
    if b.Some? then Some(EffectiveBuiltin(b.value, OverrideOf(cfg, name)))
    else if r.Some? then Some(EffectiveRow(bs, r.value))
    else None
  }

  /** The default parameters of what a name stands for. */
  function DefaultParams(bs: seq<Builtin>, custom: seq<Row>, name: string): Params {
    var b, r := FindBuiltin(bs, name), FindRow(custom, name);
    if b.Some? then b.value.params
    else if r.Some? && r.value.kind == "builtin" && FindBuiltin(bs, r.value.base).Some? then FindBuiltin(bs, r.value.base).value.params
    else map[]
  }

  /** What an update asks for: exactly the fields present replaced. A given parameter set replaces the whole
      set, what it does not mention going back to default. */
  function Requested(was: Effective, rc: RuleConfig, defaults: Params): Effective {
    Effective(if rc.enabled.Some? then rc.enabled.value else was.enabled,
              if rc.severity != "" then rc.severity else was.severity,
              if rc.params.Some? then Overlay(defaults, rc.params.value) else was.params,
              if rc.exempt.Some? then rc.exempt.value else was.exempt,
              if rc.interval.Duration? then rc.interval.d else was.interval,
              if rc.window.Duration? then rc.window.d else was.window)
  }

  /** validateConfig. */
  predicate ConfigOk(rc: RuleConfig, defaults: Params) {
    && (rc.severity != "" ==> Findings.SeverityRank(rc.severity) > 0)
    && (rc.params.Some? ==> KnownParams(rc.params.value, defaults))
    && ParseTiming(rc.interval, MIN_INTERVAL, MAX_INTERVAL).Some?
    && ParseTiming(rc.window, MIN_WINDOW, MAX_WINDOW).Some?
  }

  /** The override of a built-in rule after an update; a timing equal to the default clears it. */
  function Merged(b: Builtin, cur: RuleConfig, rc: RuleConfig): RuleConfig {
    RuleConfig(if rc.enabled.Some? then rc.enabled else cur.enabled,
               if rc.severity != "" then rc.severity else cur.severity,
               if rc.params.Some? then rc.params else cur.params,
               if rc.exempt.Some? then rc.exempt else cur.exempt,
               if rc.interval == Blank(true) then cur.interval else if ParseDuration(rc.interval) == b.interval then Blank(true) else rc.interval,
               if rc.window == Blank(true) then cur.window else if ParseDuration(rc.window) == b.window then Blank(true) else rc.window)
  }

  /** The row of a custom rule after an update. */
  function Updated(r: Row, rc: RuleConfig): Row {
    r.(enabled := if rc.enabled.Some? then rc.enabled.value else r.enabled,
       severity := if rc.severity != "" then rc.severity else r.severity,
       params := if rc.params.Some? then rc.params.value else r.params,
       exempt := if rc.exempt.Some? then rc.exempt.value else r.exempt,
       interval := if rc.interval.Duration? then rc.interval.d else r.interval,
       window := if rc.window.Duration? then rc.window.d else r.window)
  }

  /** A built-in rule without an override has its own severity, timing and parameters, is enabled and exempts
      no one. */
  lemma DefaultsInEffect(b: Builtin)
    ensures EffectiveBuiltin(b, NO_OVERRIDE) == Effective(true, b.severity, b.params, [], b.interval, b.window)
  {
  }

  /** An update that is accepted asks, field by field, for what it names, and for nothing else to change. */
  lemma RequestedIs(was: Effective, rc: RuleConfig, defaults: Params)
    ensures ConfigOk(rc, defaults)
            <==> rc.severity in {"", "info", "warning", "critical"} && (rc.params.Some? ==> rc.params.value.Keys <= defaults.Keys)
                 && TimingOk(rc.interval, 30, 604800) && TimingOk(rc.window, 60, 2592000)
    ensures var r := Requested(was, rc, defaults);
            && (rc.enabled.Some? ==> r.enabled == rc.enabled.value) && (rc.enabled == None ==> r.enabled == was.enabled)
            && (rc.severity != "" ==> r.severity == rc.severity) && (rc.severity == "" ==> r.severity == was.severity)
            && (rc.exempt.Some? ==> r.exempt == rc.exempt.value) && (rc.exempt == None ==> r.exempt == was.exempt)
            && (rc.interval.Duration? ==> r.interval == rc.interval.d) && (!rc.interval.Duration? ==> r.interval == was.interval)
            && (rc.window.Duration? ==> r.window == rc.window.d) && (!rc.window.Duration? ==> r.window == was.window)
            && (rc.params == None ==> r.params == was.params)
            && (rc.params.Some? ==>
                  && r.params.Keys == defaults.Keys
                  && forall k <- defaults :: r.params[k] == if k in rc.params.value then rc.params.value[k] else defaults[k])
  {
  }

  /** The parameters an update may name are those the rule has. */
  lemma DefaultsHaveItsParams(bs: seq<Builtin>, custom: seq<Row>, cfg: map<string, RuleConfig>, name: string)
    requires forall r <- custom :: RowOk(bs, r)
    ensures InEffect(bs, custom, cfg, name).Some? ==>
              InEffect(bs, custom, cfg, name).value.params.Keys == DefaultParams(bs, custom, name).Keys
  {
    hide NameOk, SqlOk;
  }

  /** A timing text that a built-in rule takes as asked: absent, or a duration without spaces around it. What
      is padded or blank is accepted and then read as "use the default". */
  predicate Honoured(t: Timing, was: int, default: int) {
    match t
    case Blank(empty) => empty || was == default
    case Duration(d, plain) => plain || d == default
    case Garbage => false
  }

  /** Configuring a built-in rule gives exactly what was asked if and only if its two timing texts are
      honoured; every other field always is. */
  lemma MergedAsRequestedIff(b: Builtin, cur: RuleConfig, rc: RuleConfig)
    requires b.interval > 0 && b.window > 0 && ConfigOk(rc, b.params)
    ensures var was, now := EffectiveBuiltin(b, cur), EffectiveBuiltin(b, Merged(b, cur, rc));
            && now.(interval := 0, window := 0) == Requested(was, rc, b.params).(interval := 0, window := 0)
            && (now == Requested(was, rc, b.params)
                <==> Honoured(rc.interval, was.interval, b.interval) && Honoured(rc.window, was.window, b.window))
  {
  }

  /** For instance, five minutes with a space in front is accepted, and leaves the rule at its default. */
  lemma PaddedTimingReverts(b: Builtin, cur: RuleConfig)
    requires b.interval == 60 * SECOND
    ensures var rc := NO_OVERRIDE.(interval := Duration(300 * SECOND, false));
            && ConfigOk(rc, b.params)
            && Requested(EffectiveBuiltin(b, cur), rc, b.params).interval == 300 * SECOND
            && EffectiveBuiltin(b, Merged(b, cur, rc)).interval == b.interval
  {
  }

  /** Configuring a custom rule gives exactly what was asked, and keeps the rule within its limits. */
  lemma UpdatedAsRequested(bs: seq<Builtin>, r: Row, rc: RuleConfig)
    requires RowOk(bs, r)
    requires ConfigOk(rc, if r.kind == "builtin" then FindBuiltin(bs, r.base).value.params else map[])
    ensures RowOk(bs, Updated(r, rc))
    ensures EffectiveRow(bs, Updated(r, rc))
            == Requested(EffectiveRow(bs, r), rc, if r.kind == "builtin" then FindBuiltin(bs, r.base).value.params else map[])
  {
    hide NameOk, SqlOk;
    if r.kind == "sql" && rc.params.Some? {
      assert rc.params.value == map[];
      assert Overlay(map[], map[]) == map[];
    }
  }

  // ---- storage ----

  /** Go's integer division of a duration by a second. */
  function WholeSeconds(d: int): int {
    if d >= 0 then d / SECOND else -(-d / SECOND)
  }

  /** A row as it is read back: the timing columns hold whole seconds. */
  function Stored(r: Row): Row {
    r.(interval := WholeSeconds(r.interval) * SECOND, window := WholeSeconds(r.window) * SECOND)
  }

  /** A restart changes a custom rule exactly when a timing has a fraction of a second, and never takes it
      out of its limits. */
  lemma StoredSameIff(bs: seq<Builtin>, r: Row)
    requires RowOk(bs, r)
    ensures RowOk(bs, Stored(r))
    ensures EffectiveRow(bs, Stored(r)) == EffectiveRow(bs, r) <==> r.interval % SECOND == 0 && r.window % SECOND == 0
    ensures var s := Stored(r);
            && s == r.(interval := s.interval, window := s.window) && s.interval % 1_000_000_000 == 0 && s.window % 1_000_000_000 == 0
            && s.interval <= r.interval < s.interval + 1_000_000_000 && s.window <= r.window < s.window + 1_000_000_000
  {
    hide NameOk, SqlOk;
    Truncated(r.interval, 30);
    Truncated(r.window, 60);
    assert WholeSeconds(r.interval) * SECOND <= r.interval && WholeSeconds(r.window) * SECOND <= r.window;
  }

  lemma Truncated(d: int, least: nat)
    requires d >= least * SECOND
    ensures WholeSeconds(d) >= least && WholeSeconds(d) * SECOND <= d < WholeSeconds(d) * SECOND + SECOND
    ensures WholeSeconds(d) * SECOND == d <==> d % SECOND == 0
  {
  }

  /** Memory and table: every rule in force has its row, and a row without a rule cannot be built. */
  ghost predicate Agree(bs: seq<Builtin>, custom: seq<Row>, rows: map<string, Row>) {
    && (forall r <- custom :: r.name in rows && rows[r.name] == Stored(r))
    && (forall n <- rows :: rows[n].name == n && (FindRow(custom, n) == None ==> !Buildable(bs, rows[n])))
  }

  /** Stored rows as SaveCustom and UpdateConfig leave them. */
  ghost predicate Sane(bs: seq<Builtin>, listed: seq<Row>) {
    forall r <- listed :: r == Stored(r) && FindBuiltin(bs, r.name) == None && (Buildable(bs, r) ==> RowOk(bs, r))
  }

  ghost predicate CustomOk(bs: seq<Builtin>, custom: seq<Row>) {
    && DistinctNames(custom)
    && (forall r <- custom :: RowOk(bs, r) && FindBuiltin(bs, r.name) == None)
  }

  /** No two rules, built-in or custom, share a name. */
  lemma NamesUnique(bs: seq<Builtin>, custom: seq<Row>)
    requires CatalogOk(bs) && CustomOk(bs, custom)
    ensures var names := seq(|bs|, i requires 0 <= i < |bs| => bs[i].name) + seq(|custom|, i requires 0 <= i < |custom| => custom[i].name);
            forall i, j | 0 <= i < j < |names| :: names[i] != names[j]
  {
    forall i, j | 0 <= i < |bs| && 0 <= j < |custom| ensures bs[i].name != custom[j].name {
      assert custom[j] in custom;
      assert FindBuiltin(bs, custom[j].name) == None;
      assert bs[i] in bs;
    }
  }

  // ---- installing and removing ----

  /** install: replaces every rule of that name, or appends. */
  function Installed(rs: seq<Row>, r: Row): seq<Row> {
    Replaced(rs, r) + if FindRow(rs, r.name) == None then [r] else []
  }

  function Replaced(rs: seq<Row>, r: Row): (s: seq<Row>)
    ensures |s| == |rs|
    ensures forall i | 0 <= i < |rs| :: s[i] == if rs[i].name == r.name then r else rs[i]
  {
    seq(|rs|, i requires 0 <= i < |rs| => if rs[i].name == r.name then r else rs[i])
  }

  /** The first rule of that name taken out. */
  function Without(rs: seq<Row>, name: string): seq<Row> {
    if rs == [] then []
    else if rs[0].name == name then rs[1..]
    else [rs[0]] + Without(rs[1..], name)
  }

  lemma FindReplaced(rs: seq<Row>, r: Row, n: string)
    requires DistinctNames(rs)
    ensures FindRow(Replaced(rs, r), n) == if n == r.name && FindRow(rs, n).Some? then Some(r) else FindRow(rs, n)
  {
    var s, was := Replaced(rs, r), FindRow(rs, n);
    if was.Some? {
      var i :| 0 <= i < |rs| && rs[i] == was.value;
      assert s[i] in s;
      FindDistinct(s, s[i]);
    } else {
      forall x | x in s ensures x.name != n {
        var i :| 0 <= i < |s| && s[i] == x;
        assert rs[i] in rs;
      }
    }
  }

  lemma {:induction false} FindAppended(rs: seq<Row>, r: Row, n: string)
    ensures FindRow(rs + [r], n) == if FindRow(rs, n).Some? then FindRow(rs, n) else if n == r.name then Some(r) else None
  {
    if rs == [] {
      assert rs + [r] == [r];
    } else {
      FindAppended(rs[1..], r, n);
      assert (rs + [r])[1..] == rs[1..] + [r];
    }
  }

  /** After installing, the name stands for the new rule and every other name for what it did. */
  lemma FindInstalled(rs: seq<Row>, r: Row, n: string)
    requires DistinctNames(rs)
    ensures FindRow(Installed(rs, r), n) == if n == r.name then Some(r) else FindRow(rs, n)
  {
    FindReplaced(rs, r, n);
    if FindRow(rs, r.name) == None {
      FindAppended(Replaced(rs, r), r, n);
    } else {
      assert Replaced(rs, r) + [] == Replaced(rs, r);
    }
  }

  lemma {:induction false} FindWithout(rs: seq<Row>, name: string, n: string)
    requires DistinctNames(rs)
    ensures DistinctNames(Without(rs, name))
    ensures FindRow(Without(rs, name), n) == if n == name then None else FindRow(rs, n)
    ensures forall r <- Without(rs, name) :: r in rs && r.name != name
  {
    if rs != [] {
      assert rs == [rs[0]] + rs[1..];
      assert DistinctNames(rs[1..]);
      if rs[0].name == name {
        forall r | r in rs[1..] ensures r.name != name {
          var i :| 0 <= i < |rs[1..]| && rs[1..][i] == r;
          assert rs[0].name != rs[i + 1].name;
        }
      } else {
        FindWithout(rs[1..], name, n);
        var w := Without(rs[1..], name);
        assert ([rs[0]] + w)[1..] == w;
        forall r | r in w ensures r.name != rs[0].name {
          var i :| 0 <= i < |rs[1..]| && rs[1..][i] == r;
          assert rs[0].name != rs[i + 1].name;
        }
        forall i, j | 0 <= i < j < |[rs[0]] + w| ensures ([rs[0]] + w)[i].name != ([rs[0]] + w)[j].name {
          assert ([rs[0]] + w)[j] == w[j - 1] && w[j - 1] in w;
          if i > 0 {
            assert ([rs[0]] + w)[i] == w[i - 1];
          }
        }
      }
    }
  }

  lemma InstalledOk(bs: seq<Builtin>, custom: seq<Row>, r: Row)
    requires CustomOk(bs, custom) && RowOk(bs, r) && FindBuiltin(bs, r.name) == None
    ensures CustomOk(bs, Installed(custom, r))
    ensures forall x <- Installed(custom, r) :: x == r || (x in custom && x.name != r.name)
  {
    hide RowOk, FindBuiltin, FindRow;
    var s := Installed(custom, r);
    forall i | 0 <= i < |s| ensures s[i] == r || (s[i] in custom && s[i].name != r.name) {
      if i < |custom| {
        assert custom[i] in custom;
      }
    }
    forall i, j | 0 <= i < j < |s| ensures s[i].name != s[j].name {
      assert custom[i] in custom;
      if j < |custom| {
        assert custom[i].name != custom[j].name;
      }
    }
  }

  lemma InstalledAgrees(bs: seq<Builtin>, custom: seq<Row>, rows: map<string, Row>, r: Row)
    requires Agree(bs, custom, rows) && DistinctNames(custom)
    requires forall x <- Installed(custom, r) :: x == r || (x in custom && x.name != r.name)
    ensures Agree(bs, Installed(custom, r), rows[r.name := Stored(r)])
  {
    hide Installed, Buildable, FindRow, DistinctNames;
    forall n | n in rows && n != r.name ensures FindRow(Installed(custom, r), n) == FindRow(custom, n) {
      FindInstalled(custom, r, n);
    }
    FindInstalled(custom, r, r.name);
  }

  lemma WithoutOk(bs: seq<Builtin>, custom: seq<Row>, rows: map<string, Row>, name: string)
    requires CustomOk(bs, custom) && Agree(bs, custom, rows)
    ensures CustomOk(bs, Without(custom, name)) && Agree(bs, Without(custom, name), rows - {name})
  {
    hide RowOk, FindBuiltin, FindRow, Without, DistinctNames, Buildable;
    FindWithout(custom, name, name);
    forall n | n in rows && n != name ensures FindRow(Without(custom, name), n) == FindRow(custom, n) {
      FindWithout(custom, name, n);
    }
  }

  /** loadCustom: the rows that can be built, in table order. */
  function Loaded(bs: seq<Builtin>, listed: seq<Row>): seq<Row> {
    if listed == [] then []
    else Loaded(bs, listed[..|listed| - 1]) + if Buildable(bs, listed[|listed| - 1]) then [listed[|listed| - 1]] else []
  }

  lemma {:induction false} LoadedIs(bs: seq<Builtin>, listed: seq<Row>)
    ensures KeptOf(Loaded(bs, listed), listed, (r: Row) => Buildable(bs, r))
  {
    hide KeptOf, Buildable;
    var buildable := (r: Row) => Buildable(bs, r);
    if listed == [] {
      KeptNone(buildable);
    } else {
      var n := |listed| - 1;
      LoadedIs(bs, listed[..n]);
      KeptMore(Loaded(bs, listed[..n]), listed[..n], listed[n], buildable);
      assert listed == listed[..n] + [listed[n]];
      assert Loaded(bs, listed[..n]) + [] == Loaded(bs, listed[..n]);
    }
  }

  lemma {:induction false} TableIs(listed: seq<Row>)
    requires DistinctNames(listed)
    ensures forall r <- listed :: r.name in Table(listed) && Table(listed)[r.name] == r
    ensures forall n <- Table(listed) :: Table(listed)[n] in listed && Table(listed)[n].name == n
  {
    if listed != [] {
      var front, r := listed[..|listed| - 1], listed[|listed| - 1];
      RestDistinct(listed);
      TableIs(front);
      assert listed == front + [r];
    }
  }

  function Table(listed: seq<Row>): map<string, Row> {
    if listed == [] then map[] else Table(listed[..|listed| - 1])[listed[|listed| - 1].name := listed[|listed| - 1]]
  }

  // ---- the engine ----

  datatype Result = Done | Invalid | UnknownRule | StoreFailed

  class Engine {
    const builtins: seq<Builtin>
    var custom: seq<Row>
    var cfg: map<string, RuleConfig>
    var rows: map<string, Row> // custom_rules
    var saved: map<string, RuleConfig> // settings["rules"]

    ghost predicate Valid()
      reads this
    {
      CatalogOk(builtins) && CustomOk(builtins, custom) && Agree(builtins, custom, rows)
    }

    function Rule(name: string): Option<Effective>
      reads this
    {
      InEffect(builtins, custom, cfg, name)
    }

    /** New and loadCustom: rows that cannot be built stay in the table and are skipped. The rows of a table
        this engine wrote make a valid engine; any others are loaded all the same. */
    constructor (builtins: seq<Builtin>, listed: seq<Row>, saved: map<string, RuleConfig>)
      requires DistinctNames(listed)
      ensures CatalogOk(builtins) && Sane(builtins, listed) ==> Valid()
      ensures this.builtins == builtins && cfg == saved && this.saved == saved
      ensures custom == Loaded(builtins, listed) && rows == Table(listed)
      ensures KeptOf(custom, listed, (r: Row) => Buildable(builtins, r))
      ensures forall r <- listed :: r.name in rows && rows[r.name] == r
      ensures forall n <- rows :: rows[n] in listed && rows[n].name == n
    {
      this.builtins, cfg, this.saved := builtins, saved, saved;
      custom, rows := [], map[];
      new;
      hide CustomOk, Agree, Buildable, DistinctNames, CatalogOk, Sane, KeptOf;
      LoadedIs(builtins, listed);
      TableIs(listed);
      for i := 0 to |listed|
        invariant cfg == saved && this.saved == saved
        invariant custom == Loaded(builtins, listed[..i]) && rows == Table(listed[..i])
      {
        var r := listed[i];
        assert listed[..i + 1][..i] == listed[..i];
        if Buildable(builtins, r) {
          custom := custom + [r];
        }
        rows := rows[r.name := r];
      }
      assert listed[..|listed|] == listed;
      if CatalogOk(builtins) && Sane(builtins, listed) {
        LoadedOk(builtins, listed);
      }
    }

    /** The install loop. */
    method Install(r: Row)
      modifies this`custom
      ensures custom == Installed(old(custom), r)
    {
      var replaced := false;
      for i := 0 to |custom|
        invariant |custom| == |old(custom)|
        invariant custom[..i] == Replaced(old(custom), r)[..i] && custom[i..] == old(custom)[i..]
        invariant replaced <==> exists j :: 0 <= j < i && old(custom)[j].name == r.name
      {
        if custom[i].name == r.name {
          assert old(custom)[i] == custom[i];
          custom, replaced := custom[i := r], true;
        } else {
          assert old(custom)[i] == custom[i];
        }
      }
      assert custom == Replaced(old(custom), r);
      if !replaced {
        custom := custom + [r];
      }
    }

    /** SaveCustom. The table is written first: when that fails, nothing changed. */
    method SaveCustom(spec: Spec, create: bool, storeOk: bool) returns (res: Result)
      requires Valid()
      modifies this`custom, this`rows
      ensures Valid()
      ensures var row, name := ToRow(builtins, spec), TrimSpace(spec.name);
              res == if row == None then Invalid
                     else if create && old(Rule(name)).Some? then Invalid
                     else if !create && (old(Rule(name)) == None || FindBuiltin(builtins, name).Some?) then UnknownRule
                     else if !storeOk then StoreFailed else Done
      ensures res != Done ==> custom == old(custom) && rows == old(rows)
      ensures res == Done ==>
                var row := ToRow(builtins, spec).value;
                && Rule(row.name) == Some(EffectiveRow(builtins, row))
                && rows == old(rows)[row.name := Stored(row)]
                && forall n: string :: n != row.name ==> Rule(n) == old(Rule(n))
    {
      hide ToRow, TrimSpace, EffectiveRow, EffectiveBuiltin, CustomOk, Agree, Installed;
      ToRowOk(builtins, spec);
      var row := ToRow(builtins, spec);
      if row == None {
        return Invalid;
      }
      var r := row.value;
      var builtin, existing := FindBuiltin(builtins, r.name), FindRow(custom, r.name);
      if create && (builtin.Some? || existing.Some?) {
        return Invalid;
      }
      if !create && (builtin.Some? || existing == None) {
        return UnknownRule;
      }
      if !storeOk {
        return StoreFailed;
      }
      Put(r);
      return Done;
    }

    /** A valid row is stored, then installed. */
    method Put(r: Row)
      requires Valid() && RowOk(builtins, r) && FindBuiltin(builtins, r.name) == None
      modifies this`custom, this`rows
      ensures Valid() && rows == old(rows)[r.name := Stored(r)]
      ensures Rule(r.name) == Some(EffectiveRow(builtins, r))
      ensures forall n: string :: n != r.name ==> Rule(n) == old(Rule(n))
    {
      hide RowOk, EffectiveRow, EffectiveBuiltin, CustomOk, Agree, Installed;
      InstalledOk(builtins, custom, r);
      CustomDistinct(builtins, custom);
      InstalledAgrees(builtins, custom, rows, r);
      ghost var was := custom;
      rows := rows[r.name := Stored(r)];
      Install(r);
      forall n: string ensures FindRow(custom, n) == if n == r.name then Some(r) else FindRow(was, n) {
        FindInstalled(was, r, n);
      }
    }

    /** UpdateConfig, on either kind of rule. A built-in rule's override changes in memory before it is
        stored, and stays changed when storing fails. */
    method UpdateConfig(name: string, rc: RuleConfig, storeOk: bool) returns (res: Result)
      requires Valid()
      modifies this
      ensures Valid()
      ensures res == if old(Rule(name)) == None then UnknownRule
                     else if !ConfigOk(rc, DefaultParams(builtins, old(custom), name)) then Invalid
                     else if !storeOk then StoreFailed else Done
      ensures forall n: string :: n != name ==> Rule(n) == old(Rule(n))
      ensures res == Done ==>
                var was, asked := old(Rule(name)).value, Requested(old(Rule(name)).value, rc, DefaultParams(builtins, old(custom), name));
                && Rule(name).Some?
                && Rule(name).value.(interval := 0, window := 0) == asked.(interval := 0, window := 0)
                && (Rule(name).value == asked
                    <==> var b := FindBuiltin(builtins, name);
                         b.Some? ==> Honoured(rc.interval, was.interval, b.value.interval) && Honoured(rc.window, was.window, b.value.window))
      ensures cfg == if res in {Done, StoreFailed} && FindBuiltin(builtins, name).Some?
                     then old(cfg)[name := Merged(FindBuiltin(builtins, name).value, OverrideOf(old(cfg), name), rc)] else old(cfg)
      ensures saved == if res == Done && FindBuiltin(builtins, name).Some? then cfg else old(saved)
      ensures res != Done || FindBuiltin(builtins, name).Some? ==> rows == old(rows) && custom == old(custom)
    {
      hide ConfigOk, EffectiveRow, EffectiveBuiltin, Requested, Honoured, CustomOk, Agree, CatalogOk;
      var builtin, existing := FindBuiltin(builtins, name), FindRow(custom, name);
      if builtin == None && existing == None {
        return UnknownRule;
      }
      var defaults := DefaultParams(builtins, custom, name);
      if !ConfigOk(rc, defaults) {
        return Invalid;
      }
      if builtin.Some? {
        var b := builtin.value;
        var cur := OverrideOf(cfg, name);
        PositiveTimings(builtins, b);
        MergedAsRequestedIff(b, cur, rc);
        cfg := cfg[name := Merged(b, cur, rc)];
        if !storeOk {
          return StoreFailed;
        }
        saved := cfg;
        return Done;
      }
      var r := existing.value;
      CustomOkAt(builtins, custom, r);
      UpdatedAsRequested(builtins, r, rc);
      if !storeOk {
        return StoreFailed;
      }
      RowKindDefaults(builtins, custom, r);
      Put(Updated(r, rc));
      return Done;
    }

    /** DeleteCustom. */
    method DeleteCustom(name: string, storeOk: bool) returns (res: Result)
      requires Valid()
      modifies this`custom, this`rows
      ensures Valid()
      ensures res == if old(Rule(name)) == None || FindBuiltin(builtins, name).Some? then UnknownRule else if storeOk then Done else StoreFailed
      ensures res != Done ==> custom == old(custom) && rows == old(rows)
      ensures res == Done ==> Rule(name) == None && rows == old(rows) - {name}
      ensures forall n: string :: n != name ==> Rule(n) == old(Rule(n))
    {
      hide EffectiveRow, EffectiveBuiltin, CustomOk, Agree, CatalogOk, Without;
      if FindBuiltin(builtins, name).Some? || FindRow(custom, name) == None {
        return UnknownRule;
      }
      if !storeOk {
        return StoreFailed;
      }
      WithoutOk(builtins, custom, rows, name);
      ghost var was := custom;
      forall n: string ensures FindRow(Without(was, name), n) == if n == name then None else FindRow(was, n) {
        CustomDistinct(builtins, was);
        FindWithout(was, name, n);
      }
      custom := TakeOut(custom, name);
      rows := rows - {name};
      return Done;
    }
  }

  /** The removal loop, which stops at the first match. */
  method TakeOut(rs: seq<Row>, name: string) returns (s: seq<Row>)
    ensures s == Without(rs, name)
    ensures s == rs || exists i | 0 <= i < |rs| :: rs[i].name == name && s == rs[..i] + rs[i + 1..]
    ensures s == rs ==> forall i | 0 <= i < |rs| :: rs[i].name != name
  {
    hide Without;
    assert rs[0..] == rs;
    for i := 0 to |rs|
      invariant Without(rs, name) == rs[..i] + Without(rs[i..], name)
      invariant forall j | 0 <= j < i :: rs[j].name != name
    {
      WithoutFrom(rs, name, i);
      if rs[i].name == name {
        return rs[..i] + rs[i + 1..];
      }
      assert rs[..i + 1] == rs[..i] + [rs[i]];
    }
    WithoutNone(rs[|rs|..], name);
    return rs;
  }

  lemma WithoutFrom(rs: seq<Row>, name: string, i: nat)
    requires i < |rs|
    ensures Without(rs[i..], name) == if rs[i].name == name then rs[i + 1..] else [rs[i]] + Without(rs[i + 1..], name)
  {
    assert rs[i..][1..] == rs[i + 1..];
  }

  lemma WithoutNone(rs: seq<Row>, name: string)
    requires rs == []
    ensures Without(rs, name) == []
  {
  }

  lemma {:induction false} LoadedOk(bs: seq<Builtin>, listed: seq<Row>)
    requires DistinctNames(listed) && Sane(bs, listed)
    ensures CustomOk(bs, Loaded(bs, listed)) && Agree(bs, Loaded(bs, listed), Table(listed))
    ensures forall r <- Loaded(bs, listed) :: r in listed
  {
    hide RowOk, Buildable, FindBuiltin, FindRow, Stored, CustomOk, Agree;
    if listed != [] {
      var rest, r := listed[..|listed| - 1], listed[|listed| - 1];
      assert listed == rest + [r];
      RestDistinct(listed);
      LoadedOk(bs, rest);
      LoadOne(bs, Loaded(bs, rest), Table(rest), r);
    } else {
      LoadedNone(bs);
    }
  }

  lemma RestDistinct(listed: seq<Row>)
    requires DistinctNames(listed) && listed != []
    ensures DistinctNames(listed[..|listed| - 1])
    ensures forall x <- listed[..|listed| - 1] :: x.name != listed[|listed| - 1].name
  {
    var rest := listed[..|listed| - 1];
    forall x | x in rest ensures x.name != listed[|listed| - 1].name {
      var i :| 0 <= i < |rest| && rest[i] == x;
      assert listed[i].name != listed[|listed| - 1].name;
    }
  }

  lemma LoadedNone(bs: seq<Builtin>)
    ensures CustomOk(bs, []) && Agree(bs, [], map[])
  {
  }

  lemma LoadOne(bs: seq<Builtin>, custom: seq<Row>, rows: map<string, Row>, r: Row)
    requires CustomOk(bs, custom) && Agree(bs, custom, rows) && r == Stored(r)
    requires forall x <- custom :: x.name != r.name
    requires FindBuiltin(bs, r.name) == None && (Buildable(bs, r) ==> RowOk(bs, r))
    ensures var custom' := custom + if Buildable(bs, r) then [r] else [];
            CustomOk(bs, custom') && Agree(bs, custom', rows[r.name := r])
  {
    hide CustomOk, Agree, RowOk, Buildable, FindBuiltin, FindRow, Stored;
    if Buildable(bs, r) {
      LoadedRowOk(bs, custom, r);
      LoadedRowAgrees(bs, custom, rows, r);
    } else {
      assert custom + [] == custom;
      SkippedRowAgrees(bs, custom, rows, r);
    }
  }

  lemma SkippedRowAgrees(bs: seq<Builtin>, custom: seq<Row>, rows: map<string, Row>, r: Row)
    requires Agree(bs, custom, rows) && !Buildable(bs, r)
    requires forall x <- custom :: x.name != r.name
    ensures Agree(bs, custom, rows[r.name := r])
  {
    hide Buildable, FindRow, Stored;
  }

  lemma LoadedRowOk(bs: seq<Builtin>, custom: seq<Row>, r: Row)
    requires CustomOk(bs, custom) && RowOk(bs, r) && FindBuiltin(bs, r.name) == None
    requires forall x <- custom :: x.name != r.name
    ensures CustomOk(bs, custom + [r])
  {
    hide RowOk, FindBuiltin;
  }

  lemma LoadedRowAgrees(bs: seq<Builtin>, custom: seq<Row>, rows: map<string, Row>, r: Row)
    requires Agree(bs, custom, rows) && r == Stored(r)
    requires forall x <- custom :: x.name != r.name
    ensures Agree(bs, custom + [r], rows[r.name := r])
  {
    hide Buildable, FindRow, Stored;
    forall n: string ensures FindRow(custom + [r], n) == None ==> FindRow(custom, n) == None && n != r.name {
      FindAppended(custom, r, n);
    }
  }

  lemma PositiveTimings(bs: seq<Builtin>, b: Builtin)
    requires CatalogOk(bs) && b in bs
    ensures b.interval > 0 && b.window > 0
  {
  }

  lemma CustomOkAt(bs: seq<Builtin>, custom: seq<Row>, r: Row)
    requires CustomOk(bs, custom) && r in custom
    ensures RowOk(bs, r) && FindBuiltin(bs, r.name) == None && FindRow(custom, r.name) == Some(r)
  {
    FindDistinct(custom, r);
  }

  lemma CustomDistinct(bs: seq<Builtin>, custom: seq<Row>)
    requires CustomOk(bs, custom)
    ensures DistinctNames(custom)
  {
  }

  lemma RowKindDefaults(bs: seq<Builtin>, custom: seq<Row>, r: Row)
    requires RowOk(bs, r) && FindBuiltin(bs, r.name) == None && FindRow(custom, r.name) == Some(r)
    ensures DefaultParams(bs, custom, r.name) == if r.kind == "builtin" then FindBuiltin(bs, r.base).value.params else map[]
  {
    hide NameOk, SqlOk;
  }

  // ---- runs ----

  datatype Event = Save(spec: Spec, create: bool, storeOk: bool)
                 | Configure(name: string, rc: RuleConfig, storeOk: bool)
                 | Delete(name: string, storeOk: bool)

  /** Whatever is created, changed, configured and deleted, and whichever writes fail: names stay unique,
      every custom rule stays within its limits and its base's parameters, and memory agrees with the
      table. When no write of an override failed since they last agreed, the stored overrides are the ones
      in force. */
  method Run(e: Engine, events: seq<Event>)
    requires e.Valid()
    modifies e
    ensures e.Valid()
    ensures (forall v <- events :: v.Configure? ==> v.storeOk) && old(e.saved) == old(e.cfg) ==> e.saved == e.cfg
  {
    for i := 0 to |events|
      invariant e.Valid()
      invariant (forall j | 0 <= j < i :: events[j].Configure? ==> events[j].storeOk) && old(e.saved) == old(e.cfg) ==> e.saved == e.cfg
    {
      hide CustomOk, Agree, CatalogOk, InEffect, Requested, Honoured, ConfigOk;
      match events[i]
      case Save(spec, create, storeOk) => var _ := e.SaveCustom(spec, create, storeOk);
      case Configure(name, rc, storeOk) => var _ := e.UpdateConfig(name, rc, storeOk);
      case Delete(name, storeOk) => var _ := e.DeleteCustom(name, storeOk);
    }
  }
}
