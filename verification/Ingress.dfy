/** The generated tunnel configuration: selection, total order, text, and the parser and
    first-match lookup that say what the text means. */
module Ingress {
  import opened Text
  import opened State
  import opened Identity

  datatype RenderError = MissingConfig | MissingTunnel | EmptyHostname(id: string) | InvalidPort(id: string)

  function CredentialsFile(cfg: MaybeConfig): Result<string, RenderError> {
    if cfg.None? then Err(MissingConfig)
    else if TrimSpace(cfg.value.credentialsFile) != "" then Ok(TrimSpace(cfg.value.credentialsFile))
    else if TrimSpace(cfg.value.tunnelId) == "" then Err(MissingTunnel)
    else Ok("/etc/cloudflared/" + TrimSpace(cfg.value.tunnelId) + ".json")
  }

  // ----- Order -----

  function KindName(k: RouteKind): string {
    match k case Gateway => "gateway" case Plugin => "plugin"
  }

  /** The comparison of the sort: hostname, kind, plugin, ID. */
  predicate Before(a: Route, b: Route) {
    if a.hostname != b.hostname then Less(a.hostname, b.hostname)
    else if a.kind != b.kind then Less(KindName(a.kind), KindName(b.kind))
    else if a.pluginId != b.pluginId then Less(a.pluginId, b.pluginId)
    else Less(a.id, b.id)
  }

  lemma KindOrder()
    ensures Less(KindName(Gateway), KindName(Plugin)) && !Less(KindName(Plugin), KindName(Gateway))
  {}

  lemma BeforeTotal(a: Route, b: Route)
    requires a.id != b.id
    ensures Before(a, b) || Before(b, a)
  {
    LessTotal(a.hostname, b.hostname);
    KindOrder();
    LessTotal(a.pluginId, b.pluginId);
    LessTotal(a.id, b.id);
  }

  lemma BeforeAsymmetric(a: Route, b: Route)
    requires Before(a, b)
    ensures !Before(b, a)
  {
    if a.hostname != b.hostname { LessAsymmetric(a.hostname, b.hostname); }
    else if a.kind != b.kind { LessAsymmetric(KindName(a.kind), KindName(b.kind)); }
    else if a.pluginId != b.pluginId { LessAsymmetric(a.pluginId, b.pluginId); }
    else { LessAsymmetric(a.id, b.id); }
  }

  lemma BeforeTransitive(a: Route, b: Route, c: Route)
    requires Before(a, b) && Before(b, c)
    ensures Before(a, c)
  {
    KindOrder();
    if a.hostname != b.hostname && b.hostname != c.hostname {
      LessTransitive(a.hostname, b.hostname, c.hostname);
      if a.hostname == c.hostname { LessIrreflexive(a.hostname); }
    } else if a.hostname == b.hostname == c.hostname && a.kind == b.kind == c.kind {
      if a.pluginId != b.pluginId && b.pluginId != c.pluginId {
        LessTransitive(a.pluginId, b.pluginId, c.pluginId);
        if a.pluginId == c.pluginId { LessIrreflexive(a.pluginId); }
      } else if a.pluginId == b.pluginId == c.pluginId {
        LessTransitive(a.id, b.id, c.id);
      }
    }
  }

  predicate DistinctIds(rs: seq<Route>) {
    forall i, j :: 0 <= i < j < |rs| ==> rs[i].id != rs[j].id
  }

  predicate Ordered(rs: seq<Route>) {
    forall i, j :: 0 <= i < j < |rs| ==> Before(rs[i], rs[j])
  }

  function Insert(r: Route, rs: seq<Route>): seq<Route> {
    if rs == [] || !Before(rs[0], r) then [r] + rs else [rs[0]] + Insert(r, rs[1..])
  }

  function Sort(rs: seq<Route>): seq<Route> {
    if rs == [] then [] else Insert(rs[0], Sort(rs[1..]))
  }

  lemma {:induction false} InsertKeepsElements(r: Route, rs: seq<Route>)
    ensures multiset(Insert(r, rs)) == multiset{r} + multiset(rs)
  {
    if rs != [] && Before(rs[0], r) {
      InsertKeepsElements(r, rs[1..]);
      assert rs == [rs[0]] + rs[1..];
    }
  }

  /** Sorting rearranges and neither adds nor drops a route. */
  lemma {:induction false} SortKeepsElements(rs: seq<Route>)
    ensures multiset(Sort(rs)) == multiset(rs)
  {
    if rs != [] {
      SortKeepsElements(rs[1..]);
      InsertKeepsElements(rs[0], Sort(rs[1..]));
      assert rs == [rs[0]] + rs[1..];
    }
  }

  lemma {:induction false} InsertOrders(r: Route, rs: seq<Route>)
    requires Ordered(rs) && forall i :: 0 <= i < |rs| ==> rs[i].id != r.id
    ensures Ordered(Insert(r, rs))
    ensures forall x :: x in Insert(r, rs) <==> x == r || x in rs
  {
    if rs == [] {
    } else if Before(rs[0], r) {
      InsertOrders(r, rs[1..]);
      assert rs == [rs[0]] + rs[1..];
      var tail := Insert(r, rs[1..]);
      forall j | 0 <= j < |tail| ensures Before(rs[0], tail[j]) {
        assert tail[j] in tail;
        if tail[j] != r {
          var k :| 0 <= k < |rs[1..]| && rs[1..][k] == tail[j];
          assert Before(rs[0], rs[k + 1]);
        }
      }
    } else {
      BeforeTotal(rs[0], r);
      forall j | 0 <= j < |rs| ensures Before(r, rs[j]) {
        if j > 0 { BeforeTransitive(r, rs[0], rs[j]); }
      }
    }
  }

  lemma {:induction false} SortOrders(rs: seq<Route>)
    requires DistinctIds(rs)
    ensures Ordered(Sort(rs))
    ensures forall x :: x in Sort(rs) <==> x in rs
  {
    if rs != [] {
      SortOrders(rs[1..]);
      forall i | 0 <= i < |Sort(rs[1..])| ensures Sort(rs[1..])[i].id != rs[0].id {
        assert Sort(rs[1..])[i] in Sort(rs[1..]);
        var k :| 0 <= k < |rs[1..]| && rs[1..][k] == Sort(rs[1..])[i];
        assert rs[0].id != rs[k + 1].id;
      }
      InsertOrders(rs[0], Sort(rs[1..]));
      assert rs == [rs[0]] + rs[1..];
    }
  }

  lemma OrderedHead(a: seq<Route>, b: seq<Route>)
    requires a != [] && b != [] && Ordered(a) && Ordered(b)
    requires forall x :: x in a <==> x in b
    ensures a[0] == b[0]
  {
    assert a[0] in b && b[0] in a;
    var i :| 0 <= i < |b| && b[i] == a[0];
    var j :| 0 <= j < |a| && a[j] == b[0];
    if i > 0 && j > 0 {
      assert Before(b[0], b[i]) && Before(a[0], a[j]);
      BeforeAsymmetric(a[0], b[0]);
    }
  }

  /** A set of routes has at most one arrangement in strict order. */
  lemma {:induction false} OrderedUnique(a: seq<Route>, b: seq<Route>)
    requires Ordered(a) && Ordered(b)
    requires forall x :: x in a <==> x in b
    ensures a == b
  {
    assert b != [] ==> b[0] in b;
    if a != [] {
      assert a[0] in b;
      OrderedHead(a, b);
      OrderedTail(a);
      OrderedTail(b);
      OrderedUnique(a[1..], b[1..]);
      assert a == [a[0]] + a[1..] && b == [b[0]] + b[1..];
    }
  }

  lemma OrderedTail(a: seq<Route>)
    requires a != [] && Ordered(a)
    ensures Ordered(a[1..])
    ensures forall x :: x in a[1..] <==> x in a && x != a[0]
  {
    forall x | x in a[1..] ensures x != a[0] {
      var k :| 0 <= k < |a[1..]| && a[1..][k] == x;
      assert Before(a[0], a[k + 1]);
      BeforeAsymmetric(a[0], x);
    }
    assert a == [a[0]] + a[1..];
  }

  // ----- Selection and text -----

  function Enabled(rs: seq<Route>): seq<Route> {
    if rs == [] then []
    else Kept(rs[0]) + Enabled(rs[1..])
  }

  lemma {:induction false} EnabledMembers(rs: seq<Route>)
    ensures forall x :: x in Enabled(rs) <==> x in rs && x.enabled
    ensures DistinctIds(rs) ==> DistinctIds(Enabled(rs))
  {
    if rs != [] {
      EnabledMembers(rs[1..]);
      assert rs == [rs[0]] + rs[1..];
      if DistinctIds(rs) && rs[0].enabled {
        forall j | 0 <= j < |Enabled(rs[1..])| ensures Enabled(rs[1..])[j].id != rs[0].id {
          assert Enabled(rs[1..])[j] in rs[1..];
          var k :| 0 <= k < |rs[1..]| && rs[1..][k] == Enabled(rs[1..])[j];
          assert rs[0].id != rs[k + 1].id;
        }
      }
    }
  }

  function Kept(r: Route): seq<Route> { if r.enabled then [r] else [] }

  function CheckRoute(r: Route): Option<RenderError> {
    if TrimSpace(r.hostname) == "" then Some(EmptyHostname(r.id))
    else if r.localPort <= 0 then Some(InvalidPort(r.id))
    else None
  }

  const HOSTNAME_LINE := "  - hostname: "
  const SERVICE_LINE := "    service: http://127.0.0.1:"
  const CATCH_ALL_LINE := "  - service: http_status:404"

  function Closing(): string { CATCH_ALL_LINE + "\n" }

  function HostLine(r: Route): string { HOSTNAME_LINE + r.hostname }

  function ServiceLine(r: Route): string { SERVICE_LINE + Itoa(r.localPort) }

  function RuleText(r: Route): string {
    HostLine(r) + "\n" + ServiceLine(r) + "\n"
  }

  /** The first defect among the routes, in order. */
  function FirstDefect(rs: seq<Route>): Option<RenderError> {
    if rs == [] then None
    else if CheckRoute(rs[0]).Some? then CheckRoute(rs[0])
    else FirstDefect(rs[1..])
  }

  function RulesText(rs: seq<Route>): string {
    if rs == [] then "" else RuleText(rs[0]) + RulesText(rs[1..])
  }

  function Header(tunnel: string, credentials: string): string {
    "tunnel: " + tunnel + "\n" + "credentials-file: " + credentials + "\n\n" + "ingress:\n"
  }

  function Render(cfg: MaybeConfig, routes: seq<Route>): Result<string, RenderError> {
    if cfg.None? then Err(MissingConfig)
    else if TrimSpace(cfg.value.tunnelId) == "" then Err(MissingTunnel)
    else match CredentialsFile(cfg)
      case Err(e) => Err(e)
      case Ok(credentials) =>
        var rs := Sort(Enabled(routes));
        if FirstDefect(rs).Some? then Err(FirstDefect(rs).value)
        else Ok(Header(TrimSpace(cfg.value.tunnelId), credentials) + (RulesText(rs) + Closing()))
  }

  /** With distinct IDs the text depends only on which routes are enabled: not on their
      order in the input and not on any disabled route. */
  lemma RenderIsCanonical(cfg: MaybeConfig, a: seq<Route>, b: seq<Route>)
    requires DistinctIds(a) && DistinctIds(b)
    requires forall x: Route :: x.enabled ==> (x in a <==> x in b)
    ensures Render(cfg, a) == Render(cfg, b)
  {
    EnabledMembers(a);
    EnabledMembers(b);
    SortOrders(Enabled(a));
    SortOrders(Enabled(b));
    OrderedUnique(Sort(Enabled(a)), Sort(Enabled(b)));
  }

  /** An enabled route that has no place in the configuration. */
  predicate Defective(r: Route) { TrimSpace(r.hostname) == "" || r.localPort <= 0 }

  /** Route `i` is the first defective one, and the error says so. */
  predicate NamesFirst(rs: seq<Route>, i: nat, e: RenderError) {
    && i < |rs| && Defective(rs[i]) && (forall j :: 0 <= j < i ==> !Defective(rs[j]))
    && e == if TrimSpace(rs[i].hostname) == "" then EmptyHostname(rs[i].id) else InvalidPort(rs[i].id)
  }

  lemma NamesNext(rs: seq<Route>, i: nat, e: RenderError)
    requires rs != [] && !Defective(rs[0]) && NamesFirst(rs[1..], i, e)
    ensures NamesFirst(rs, i + 1, e)
  {
    hide Defective;
    forall j | 0 <= j < i + 1 ensures !Defective(rs[j]) { if j > 0 { assert !Defective(rs[1..][j - 1]); } }
  }

  lemma {:induction false} FirstDefectIsFirst(rs: seq<Route>)
    ensures FirstDefect(rs).None? ==> forall x :: x in rs ==> !Defective(x)
    ensures FirstDefect(rs).Some? ==> exists i :: 0 <= i < |rs| && NamesFirst(rs, i, FirstDefect(rs).value)
  {
    hide TrimSpace;
    if rs != [] {
      if CheckRoute(rs[0]).Some? {
        assert NamesFirst(rs, 0, FirstDefect(rs).value);
      } else {
        FirstDefectIsFirst(rs[1..]);
        assert forall x :: x in rs ==> x == rs[0] || x in rs[1..];
        if FirstDefect(rs[1..]).Some? {
          var i :| 0 <= i < |rs[1..]| && NamesFirst(rs[1..], i, FirstDefect(rs).value);
          NamesNext(rs, i, FirstDefect(rs).value);
        }
      }
    }
  }

  /** Of all defective routes that are enabled, this is the first in order, and the error says so. */
  predicate IsFirstDefective(routes: seq<Route>, x: Route, e: RenderError) {
    && x in routes && x.enabled && Defective(x)
    && (forall y :: y in routes && y.enabled && Defective(y) ==> y == x || Before(x, y))
    && e == if TrimSpace(x.hostname) == "" then EmptyHostname(x.id) else InvalidPort(x.id)
  }

  /** Rendering fails exactly without a configuration, without a tunnel or for a defective route that is
      enabled, and then names the first one in the order of the text. */
  lemma RenderFailsExactly(cfg: MaybeConfig, routes: seq<Route>)
    requires DistinctIds(routes)
    ensures Render(cfg, routes) == Err(MissingConfig) <==> cfg.None?
    ensures Render(cfg, routes) == Err(MissingTunnel) <==> cfg.Some? && TrimSpace(cfg.value.tunnelId) == ""
    ensures Render(cfg, routes).Ok? <==>
      && cfg.Some? && TrimSpace(cfg.value.tunnelId) != ""
      && forall x :: x in routes && x.enabled ==> !Defective(x)
    ensures Render(cfg, routes).Err? && cfg.Some? && TrimSpace(cfg.value.tunnelId) != "" ==>
      exists x :: x in routes && IsFirstDefective(routes, x, Render(cfg, routes).error)
  {
    RenderChecksOrdered(cfg, routes);
    hide Sort, Enabled, Render, TrimSpace, Before, Defective;
    var rs := Sort(Enabled(routes));
    EnabledMembers(routes);
    SortOrders(Enabled(routes));
    FirstDefectIsFirst(rs);
    if FirstDefect(rs).Some? {
      var i :| 0 <= i < |rs| && NamesFirst(rs, i, FirstDefect(rs).value);
      FirstInOrder(routes, rs, i, FirstDefect(rs).value);
    }
  }

  /** With a configuration and a tunnel, the routes in order decide. */
  lemma RenderChecksOrdered(cfg: MaybeConfig, routes: seq<Route>)
    ensures Render(cfg, routes) == Err(MissingConfig) <==> cfg.None?
    ensures Render(cfg, routes) == Err(MissingTunnel) <==> cfg.Some? && TrimSpace(cfg.value.tunnelId) == ""
    ensures cfg.Some? && TrimSpace(cfg.value.tunnelId) != "" ==>
      var defect := FirstDefect(Sort(Enabled(routes)));
      if defect.None? then Render(cfg, routes).Ok? else Render(cfg, routes) == Err(defect.value)
  {
    hide Sort, Enabled, TrimSpace, Header, RulesText, Closing;
    FirstDefectIsFirst(Sort(Enabled(routes)));
  }

  lemma FirstInOrder(routes: seq<Route>, rs: seq<Route>, i: nat, e: RenderError)
    requires Ordered(rs) && NamesFirst(rs, i, e) && forall x :: x in rs <==> x in routes && x.enabled
    ensures IsFirstDefective(routes, rs[i], e)
  {
    hide TrimSpace, Before;
    assert rs[i] in rs;
    forall y | y in routes && y.enabled && Defective(y) ensures y == rs[i] || Before(rs[i], y) {
      assert y in rs;
      var j :| 0 <= j < |rs| && rs[j] == y;
    }
  }

  /** The method form of the renderer: filter, sort, then print until the first defect. */
  method RenderConfig(cfg: MaybeConfig, routes: seq<Route>) returns (r: Result<string, RenderError>)
    ensures r == Render(cfg, routes)
  {
    if cfg.None? { return Err(MissingConfig); }
    var tunnel := TrimSpace(cfg.value.tunnelId);
    if tunnel == "" { return Err(MissingTunnel); }
    var credentials := CredentialsFile(cfg);
    if credentials.Err? { return Err(credentials.error); }
    var enabled := SelectEnabled(routes);
    enabled := Sort(enabled);
    var rules := PrintRules(enabled);
    if rules.Err? { return Err(rules.error); }
    r := Ok(Header(tunnel, credentials.value) + (rules.value + Closing()));
  }

  method SelectEnabled(routes: seq<Route>) returns (enabled: seq<Route>)
    ensures enabled == Enabled(routes)
  {
    enabled := [];
    for i := 0 to |routes|
      invariant enabled + Enabled(routes[i..]) == Enabled(routes)
    {
      ghost var before := enabled;
      assert routes[i..][1..] == routes[i + 1..];
      if routes[i].enabled { enabled := enabled + [routes[i]]; }
      assert enabled == before + Kept(routes[i]);
      hide Kept;
      assert (before + Kept(routes[i])) + Enabled(routes[i + 1..])
        == before + (Kept(routes[i]) + Enabled(routes[i + 1..]));
    }
  }

  method PrintRules(enabled: seq<Route>) returns (r: Result<string, RenderError>)
    ensures r == if FirstDefect(enabled).Some? then Err(FirstDefect(enabled).value) else Ok(RulesText(enabled))
  {
    hide CheckRoute, RuleText;
    var text := "";
    assert enabled[0..] == enabled && text + RulesText(enabled) == RulesText(enabled);
    for i := 0 to |enabled|
      invariant text + RulesText(enabled[i..]) == RulesText(enabled)
      invariant FirstDefect(enabled[i..]) == FirstDefect(enabled)
    {
      assert enabled[i..][1..] == enabled[i + 1..];
      var defect := CheckRoute(enabled[i]);
      if defect.Some? { return Err(defect.value); }
      assert (text + RuleText(enabled[i])) + RulesText(enabled[i + 1..])
        == text + (RuleText(enabled[i]) + RulesText(enabled[i + 1..]));
      text := text + RuleText(enabled[i]);
    }
    assert enabled[|enabled|..] == [] && text + "" == text;
    r := Ok(text);
  }

  // ----- Parsing -----

  datatype Rule = Forward(hostname: string, port: nat) | NotFound

  datatype Parsed = Parsed(tunnel: string, credentials: string, rules: seq<Rule>)

  function After(line: string, prefix: string): Option<string> {
    if prefix <= line then Some(line[|prefix|..]) else None
  }

  function ParseRules(lines: seq<string>): Option<seq<Rule>> {
    if lines == [""] then Some([])
    else if lines == [] then None
    else if lines[0] == "  - service: http_status:404" then
      match ParseRules(lines[1..]) case None => None case Some(rest) => Some([NotFound] + rest)
    else if |lines| < 2 then None
    else
      var host := After(lines[0], "  - hostname: ");
      var port := After(lines[1], "    service: http://127.0.0.1:");
      if host.None? || port.None? || !IsNumeral(port.value) then None
      else match ParseRules(lines[2..])
        case None => None
        case Some(rest) => Some([Forward(host.value, NumeralValue(port.value))] + rest)
  }

  function ParseConfig(text: string): Option<Parsed> { ParseLines(Split(text, '\n')) }

  function ParseLines(lines: seq<string>): Option<Parsed> {
    if |lines| < 4 || lines[2] != "" || lines[3] != "ingress:" then None
    else
      var tunnel := After(lines[0], "tunnel: ");
      var credentials := After(lines[1], "credentials-file: ");
      if tunnel.None? || credentials.None? then None
      else match ParseRules(lines[4..])
        case None => None
        case Some(rules) => Some(Parsed(tunnel.value, credentials.value, rules))
  }

  /** First-match lookup: the local port a hostname is sent to, or nothing for the 404 page. */
  function Lookup(rules: seq<Rule>, hostname: string): Option<nat> {
    if rules == [] then None
    else match rules[0]
      case NotFound => None
      case Forward(h, p) => if h == hostname then Some(p) else Lookup(rules[1..], hostname)
  }

  function ForwardOf(r: Route): Rule { Forward(r.hostname, if r.localPort > 0 then r.localPort else 0) }

  /** One forward for each route, in order, then the catch-all. */
  function RulesOf(rs: seq<Route>): seq<Rule> {
    if rs == [] then [NotFound] else [ForwardOf(rs[0])] + RulesOf(rs[1..])
  }

  lemma NumeralHasNoNewline(n: nat)
    ensures Without(Numeral(n), '\n')
  {
    assert IsNumeral(Numeral(n));
  }

  lemma SplitLine(line: string, rest: string)
    requires Without(line, '\n')
    ensures Split(line + "\n" + rest, '\n') == [line] + Split(rest, '\n')
  {
    SplitFirst(line, '\n', rest);
  }

  lemma SplitTwoLines(first: string, second: string, rest: string)
    requires Without(first, '\n') && Without(second, '\n')
    ensures Split(first + "\n" + second + "\n" + rest, '\n') == [first, second] + Split(rest, '\n')
  {
    assert first + "\n" + second + "\n" + rest == first + "\n" + (second + "\n" + rest);
    SplitLine(first, second + "\n" + rest);
    SplitLine(second, rest);
  }

  lemma LinesOfRule(r: Route)
    requires CheckRoute(r).None? && Without(r.hostname, '\n')
    ensures Without(HostLine(r), '\n') && Without(ServiceLine(r), '\n')
    ensures HostLine(r) != "  - service: http_status:404" && HostLine(r) != ""
    ensures After(HostLine(r), "  - hostname: ") == Some(r.hostname)
    ensures After(ServiceLine(r), "    service: http://127.0.0.1:") == Some(Numeral(r.localPort))
  {
    NumeralHasNoNewline(r.localPort);
    assert HostLine(r)[4] == 'h' && CATCH_ALL_LINE[4] == 's';
  }

  lemma CatchAllParses()
    ensures ParseRules(Split(Closing(), '\n')) == Some([NotFound])
  {
    SplitLine(CATCH_ALL_LINE, "");
    assert CATCH_ALL_LINE + "\n" + "" == CATCH_ALL_LINE + "\n";
    var lines := Split(CATCH_ALL_LINE + "\n", '\n');
    assert lines == [CATCH_ALL_LINE, ""] && lines[1..] == [""];
    assert ParseRules(lines[1..]) == Some([]);
    assert [NotFound] + [] == [NotFound];
  }

  /** One rule in front of lines that parse. */
  lemma RuleParses(r: Route, lines: seq<string>, rules: seq<Rule>)
    requires CheckRoute(r).None? && Without(r.hostname, '\n')
    requires ParseRules(lines) == Some(rules)
    ensures ParseRules([HostLine(r), ServiceLine(r)] + lines) == Some([Forward(r.hostname, r.localPort)] + rules)
  {
    var all := [HostLine(r), ServiceLine(r)] + lines;
    LinesOfRule(r);
    assert all[2..] == lines;
    assert all[0] == HostLine(r) && all[1] == ServiceLine(r);
    NumeralRoundTrip(r.localPort);
  }

  lemma {:induction false} NoDefect(rs: seq<Route>)
    requires FirstDefect(rs).None?
    ensures forall i :: 0 <= i < |rs| ==> CheckRoute(rs[i]).None?
  {
    hide CheckRoute;
    if rs != [] {
      NoDefect(rs[1..]);
      forall i | 0 <= i < |rs| ensures CheckRoute(rs[i]).None? { if i > 0 { assert rs[i] == rs[1..][i - 1]; } }
    }
  }

  lemma {:induction false} RulesParse(rs: seq<Route>)
    requires forall i :: 0 <= i < |rs| ==> CheckRoute(rs[i]).None? && Without(rs[i].hostname, '\n')
    ensures ParseRules(Split(RulesText(rs) + Closing(), '\n')) == Some(RulesOf(rs))
  {
    hide CheckRoute, RuleText, Closing, Without;
    if rs == [] {
      CatchAllParses();
      assert RulesText(rs) + Closing() == Closing();
    } else {
      hide ParseRules;
      var r := rs[0];
      forall i | 0 <= i < |rs[1..]| ensures rs[1..][i] == rs[i + 1] {}
      RulesParse(rs[1..]);
      FirstRuleParses(r, RulesText(rs[1..]) + Closing(), RulesOf(rs[1..]));
      assert RulesText(rs) + Closing() == RuleText(r) + (RulesText(rs[1..]) + Closing());
      CheckedPort(r);
    }
  }

  lemma CheckedPort(r: Route)
    requires CheckRoute(r).None?
    ensures r.localPort > 0
  {}

  lemma FirstRuleParses(r: Route, more: string, rules: seq<Rule>)
    requires CheckRoute(r).None? && Without(r.hostname, '\n')
    requires ParseRules(Split(more, '\n')) == Some(rules)
    ensures ParseRules(Split(RuleText(r) + more, '\n')) == Some([Forward(r.hostname, r.localPort)] + rules)
  {
    hide ParseRules, HostLine, ServiceLine, Split;
    LinesOfRule(r);
    SplitTwoLines(HostLine(r), ServiceLine(r), more);
    RuleParses(r, Split(more, '\n'), rules);
  }

  lemma HeaderLines(tunnel: string, credentials: string, body: string)
    requires Without(tunnel, '\n') && Without(credentials, '\n')
    ensures Split(Header(tunnel, credentials) + body, '\n') ==
            ["tunnel: " + tunnel, "credentials-file: " + credentials, "", "ingress:"] + Split(body, '\n')
  {
    var l0, l1 := "tunnel: " + tunnel, "credentials-file: " + credentials;
    var rest := "" + "\n" + "ingress:" + "\n" + body;
    assert Header(tunnel, credentials) + body == l0 + "\n" + l1 + "\n" + rest;
    SplitTwoLines(l0, l1, rest);
    SplitTwoLines("", "ingress:", body);
  }

  /** A header in front of rules that parse. */
  lemma ConfigParses(tunnel: string, credentials: string, body: string, rules: seq<Rule>)
    requires Without(tunnel, '\n') && Without(credentials, '\n')
    requires ParseRules(Split(body, '\n')) == Some(rules)
    ensures ParseConfig(Header(tunnel, credentials) + body) == Some(Parsed(tunnel, credentials, rules))
  {
    hide Split, Header, ParseRules, ParseLines;
    HeaderLines(tunnel, credentials, body);
    LinesParse(tunnel, credentials, Split(body, '\n'), rules);
  }

  lemma LinesParse(tunnel: string, credentials: string, body: seq<string>, rules: seq<Rule>)
    requires ParseRules(body) == Some(rules)
    ensures ParseLines(["tunnel: " + tunnel, "credentials-file: " + credentials, "", "ingress:"] + body)
      == Some(Parsed(tunnel, credentials, rules))
  {
    hide ParseRules;
    var lines := ["tunnel: " + tunnel, "credentials-file: " + credentials, "", "ingress:"] + body;
    assert lines[4..] == body;
    AfterPrefix("tunnel: ", tunnel);
    AfterPrefix("credentials-file: ", credentials);
    hide After;
  }

  lemma AfterPrefix(prefix: string, rest: string)
    ensures After(prefix + rest, prefix) == Some(rest)
  {}

  /** The settings that reach the text fit on one line each. */
  predicate OneLine(cfg: OverlayConfig) {
    Without(TrimSpace(cfg.tunnelId), '\n') && Without(TrimSpace(cfg.credentialsFile), '\n')
  }

  /** The first difference decides: the hostname, a gateway before a plugin, the plugin, the ID. */
  predicate Precedes(a: Route, b: Route) {
    if a.hostname != b.hostname then Smaller(a.hostname, b.hostname)
    else if a.kind != b.kind then a.kind == Gateway
    else if a.pluginId != b.pluginId then Smaller(a.pluginId, b.pluginId)
    else Smaller(a.id, b.id)
  }

  predicate Ascends(rs: seq<Route>) { forall i, j :: 0 <= i < j < |rs| ==> Precedes(rs[i], rs[j]) }

  lemma OrderedAscends(rs: seq<Route>)
    requires Ordered(rs)
    ensures Ascends(rs)
  {
    KindOrder();
    forall i, j | 0 <= i < j < |rs| ensures Precedes(rs[i], rs[j]) {
      assert Before(rs[i], rs[j]);
      LessIsLexicographic(rs[i].hostname, rs[j].hostname);
      LessIsLexicographic(rs[i].pluginId, rs[j].pluginId);
      LessIsLexicographic(rs[i].id, rs[j].id);
    }
  }

  /** Parsing the text gives back the tunnel, the configured credentials or those named after the
      tunnel, the enabled routes in strict order with their ports, and exactly one catch-all, at
      the end. */
  lemma RenderRoundTrip(cfg: MaybeConfig, routes: seq<Route>)
    requires cfg.Some? && OneLine(cfg.value) && DistinctIds(routes) && Render(cfg, routes).Ok?
    requires forall i :: 0 <= i < |routes| ==> Without(routes[i].hostname, '\n')
    ensures var rs := Sort(Enabled(routes));
      Ordered(rs) && Ascends(rs) && forall x :: x in rs <==> x in routes && x.enabled
    ensures ParseConfig(Render(cfg, routes).value) == Some(Parsed(
      TrimSpace(cfg.value.tunnelId),
      if TrimSpace(cfg.value.credentialsFile) != "" then TrimSpace(cfg.value.credentialsFile)
      else "/etc/cloudflared/" + TrimSpace(cfg.value.tunnelId) + ".json",
      RulesOf(Sort(Enabled(routes)))))
  {
    CredentialsFit(cfg);
    RenderedText(cfg, routes);
    hide Render, TrimSpace, CredentialsFile, Without, OneLine, Sort, Enabled, FirstDefect, ParseConfig, RulesOf,
         Ordered, Ascends, DistinctIds, Header, RulesText, Closing;
    EnabledInOrder(routes);
    TextParses(TrimSpace(cfg.value.tunnelId), CredentialsFile(cfg).value, Sort(Enabled(routes)));
  }

  lemma EnabledInOrder(routes: seq<Route>)
    requires DistinctIds(routes)
    ensures var rs := Sort(Enabled(routes));
      Ordered(rs) && Ascends(rs) && forall x :: x in rs <==> x in routes && x.enabled
    ensures forall i :: 0 <= i < |Sort(Enabled(routes))| ==> Sort(Enabled(routes))[i] in routes
  {
    hide Sort, Enabled, Ordered, Ascends, DistinctIds;
    EnabledMembers(routes);
    SortOrders(Enabled(routes));
    OrderedAscends(Sort(Enabled(routes)));
  }

  lemma TextParses(tunnel: string, credentials: string, rs: seq<Route>)
    requires Without(tunnel, '\n') && Without(credentials, '\n') && FirstDefect(rs).None?
    requires forall i :: 0 <= i < |rs| ==> Without(rs[i].hostname, '\n')
    ensures ParseConfig(Header(tunnel, credentials) + (RulesText(rs) + Closing()))
      == Some(Parsed(tunnel, credentials, RulesOf(rs)))
  {
    hide FirstDefect, CheckRoute, Without, ParseConfig, RulesOf, Header, RulesText, Closing;
    NoDefect(rs);
    RulesParse(rs);
    ConfigParses(tunnel, credentials, RulesText(rs) + Closing(), RulesOf(rs));
  }

  lemma RenderedText(cfg: MaybeConfig, routes: seq<Route>)
    requires Render(cfg, routes).Ok?
    ensures CredentialsFile(cfg).Ok? && FirstDefect(Sort(Enabled(routes))).None?
    ensures Render(cfg, routes).value == Header(TrimSpace(cfg.value.tunnelId), CredentialsFile(cfg).value)
      + (RulesText(Sort(Enabled(routes))) + Closing())
  {
    hide TrimSpace, CredentialsFile, Sort, Enabled, FirstDefect, Header, RulesText, Closing;
  }

  lemma CredentialsFit(cfg: MaybeConfig)
    requires cfg.Some? && OneLine(cfg.value) && CredentialsFile(cfg).Ok?
    ensures Without(CredentialsFile(cfg).value, '\n') && Without(TrimSpace(cfg.value.tunnelId), '\n')
    ensures CredentialsFile(cfg).value ==
      if TrimSpace(cfg.value.credentialsFile) != "" then TrimSpace(cfg.value.credentialsFile)
      else "/etc/cloudflared/" + TrimSpace(cfg.value.tunnelId) + ".json"
  {}

  predicate OnlyAt(rs: seq<Route>, i: nat, hostname: string) {
    && i < |rs| && rs[i].hostname == hostname
    && forall j :: 0 <= j < |rs| && j != i ==> rs[j].hostname != hostname
  }

  lemma {:induction false} LookupMisses(rs: seq<Route>, hostname: string)
    requires forall i :: 0 <= i < |rs| ==> rs[i].hostname != hostname
    ensures Lookup(RulesOf(rs), hostname) == None
  {
    if rs != [] {
      forall i | 0 <= i < |rs[1..]| ensures rs[1..][i].hostname != hostname { assert rs[1..][i] == rs[i + 1]; }
      LookupMisses(rs[1..], hostname);
    }
  }

  lemma {:induction false} LookupFinds(rs: seq<Route>, i: nat, hostname: string)
    requires OnlyAt(rs, i, hostname) && rs[i].localPort > 0
    ensures Lookup(RulesOf(rs), hostname) == Some(rs[i].localPort)
  {
    if i > 0 {
      assert forall j :: 0 <= j < |rs[1..]| ==> rs[1..][j] == rs[j + 1];
      LookupFinds(rs[1..], i - 1, hostname);
    }
  }

  /** What a table of routes promises for a hostname. */
  predicate Serves(table: map<string, Route>, hostname: string, answer: Option<nat>) {
    match answer
    case Some(p) =>
      exists id :: id in table && table[id].enabled && table[id].hostname == hostname && table[id].localPort == p
    case None => forall id :: id in table && table[id].enabled ==> table[id].hostname != hostname
  }

  /** The text rendered from any listing of a table with unique hostnames sends each hostname
      of an enabled route to that route's port and every other hostname to the 404 page. */
  lemma RenderedTableServes(cfg: MaybeConfig, table: map<string, Route>, listing: seq<Route>, hostname: string)
    requires Lists(listing, table) && UniqueHostnames(table) && Render(cfg, listing).Ok?
    requires OneLine(cfg.value) && forall id :: id in table ==> Without(table[id].hostname, '\n')
    ensures ParseConfig(Render(cfg, listing).value).Some?
    ensures Serves(table, hostname, Lookup(ParseConfig(Render(cfg, listing).value).value.rules, hostname))
  {
    RenderRoundTrip(cfg, listing);
    var rs := Sort(Enabled(listing));
    NoDefect(rs);
    if i: nat :| i < |rs| && rs[i].hostname == hostname {
      assert rs[i] in rs;
      forall j | 0 <= j < |rs| && j != i ensures rs[j].hostname != hostname {
        assert rs[j] in rs;
        if rs[j] == rs[i] {
          if i < j { BeforeAsymmetric(rs[i], rs[j]); } else { BeforeAsymmetric(rs[j], rs[i]); }
        }
      }
      LookupFinds(rs, i, hostname);
    } else {
      forall id | id in table && table[id].enabled ensures table[id].hostname != hostname {
        assert table[id] in rs;
      }
      LookupMisses(rs, hostname);
    }
  }
}
