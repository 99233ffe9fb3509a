/** Names: user names, slugs, public hostnames and route identifiers. */
module Identity {
  import opened Text
  import opened State

  /** The overlay settings that publication, naming and port allocation read. */
  datatype OverlayConfig = OverlayConfig(domain: string, subdomain: string, tunnelId: string,
                                         credentialsFile: string, portRangeStart: int, portRangeStep: int)

  type MaybeConfig = Option<OverlayConfig>

  // ----- User names -----

  datatype NameError = EmptyName | LeadingHyphen | BadCharacters | Reserved

  predicate UsernameChar(c: char) {
    'a' <= c <= 'z' || IsDigit(c) || c == '_' || c == '-'
  }

  function ValidateUsername(username: string): Result<(), NameError> {
    if username == "" then Err(EmptyName)
    else if username[0] == '-' then Err(LeadingHyphen)
    else if |username| > 32 || !Free(username, c => !UsernameChar(c)) then Err(BadCharacters)
    else if username in {"root", "openclaw", "openclaw-multi"} then Err(Reserved)
    else Ok(())
  }

  predicate ValidUsername(username: string) { ValidateUsername(username).Ok? }

  /** The names accepted: one to 32 lower-case letters, digits, underscores and hyphens, with no hyphen in
      front, but for three names. */
  lemma ValidUsernameIsExact(username: string)
    ensures ValidUsername(username) <==>
      && 1 <= |username| <= 32 && !("-" <= username)
      && (forall c :: c in username ==> 'a' <= c <= 'z' || '0' <= c <= '9' || c == '_' || c == '-')
      && username != "root" && username != "openclaw" && username != "openclaw-multi"
  {
    var bad := c => !UsernameChar(c);
    if ValidUsername(username) { ValidUsernameChars(username); }
    assert Free(username, bad) <==> forall i :: 0 <= i < |username| ==> UsernameChar(username[i]);
    forall i | 0 <= i < |username| ensures username[i] in username {}
  }

  /** The characters that separate the parts of route IDs, hostnames and paths never occur. */
  lemma ValidUsernameChars(username: string)
    requires ValidUsername(username)
    ensures forall i :: 0 <= i < |username| ==> UsernameChar(username[i])
  {
    var bad := c => !UsernameChar(c);
    assert forall i :: 0 <= i < |username| ==> !bad(username[i]);
  }

  lemma ValidUsernameHasNoSeparators(username: string)
    requires ValidUsername(username)
    ensures Without(username, ':') && Without(username, '.') && Without(username, '/')
    ensures TrimSpace(username) == username
  {
    ValidUsernameChars(username);
    hide ValidateUsername;
    TrimKeepsClean(username, IsSpace);
  }

  // ----- Slugs -----

  predicate SlugChar(c: char) { 'a' <= c <= 'z' || IsDigit(c) || c == '-' }

  /** Each maximal run of other characters becomes one hyphen. */
  function ReplaceRuns(s: string, inRun: bool): string {
    if s == [] then ""
    else if SlugChar(s[0]) then [s[0]] + ReplaceRuns(s[1..], false)
    else (if inRun then "" else "-") + ReplaceRuns(s[1..], true)
  }

  function Slug(v: string): string {
    Trim(ReplaceRuns(Lower(TrimSpace(v)), false), IsHyphen)
  }

  predicate Slugged(s: string) {
    (forall i :: 0 <= i < |s| ==> SlugChar(s[i])) && CleanEdges(s, IsHyphen)
  }

  function Alphanumeric(c: char): string {
    if SlugChar(c) && c != '-' then [c] else ""
  }

  /** The letters and digits of `s`, in order. */
  function Alphanumerics(s: string): string {
    if s == [] then "" else Alphanumeric(s[0]) + Alphanumerics(s[1..])
  }

  lemma {:induction false} ReplaceRunsAlphabet(s: string, inRun: bool)
    ensures forall i :: 0 <= i < |ReplaceRuns(s, inRun)| ==> SlugChar(ReplaceRuns(s, inRun)[i])
  {
    if s != [] { ReplaceRunsAlphabet(s[1..], !SlugChar(s[0])); }
  }

  lemma {:induction false} ReplaceRunsFixed(s: string, inRun: bool)
    requires forall i :: 0 <= i < |s| ==> SlugChar(s[i])
    ensures ReplaceRuns(s, inRun) == s
  {
    if s != [] { ReplaceRunsFixed(s[1..], false); }
  }

  /** A slug uses only lower-case letters, digits and inner hyphens. */
  lemma SlugIsSlugged(v: string)
    ensures Slugged(Slug(v))
  {
    var r := ReplaceRuns(Lower(TrimSpace(v)), false);
    ReplaceRunsAlphabet(Lower(TrimSpace(v)), false);
    TrimIsSlice(r, IsHyphen);
  }

  lemma SlugKeepsSlugs(s: string)
    requires Slugged(s)
    ensures Slug(s) == s
  {
    TrimKeepsClean(s, IsSpace);
    assert Lower(s) == s;
    ReplaceRunsFixed(s, false);
    TrimKeepsClean(s, IsHyphen);
  }

  /** The results of `Slug` are exactly the slugged texts, on which it is the identity. */
  lemma SlugIdempotent(v: string)
    ensures Slug(Slug(v)) == Slug(v)
    ensures Slugged(v) <==> Slug(v) == v
  {
    SlugIsSlugged(v);
    SlugKeepsSlugs(Slug(v));
    if Slugged(v) { SlugKeepsSlugs(v); }
  }

  lemma {:induction false} AlphanumericsConcat(a: string, b: string)
    ensures Alphanumerics(a + b) == Alphanumerics(a) + Alphanumerics(b)
  {
    hide Alphanumeric;
    if a == [] {
      assert a + b == b;
    } else {
      AlphanumericsConcat(a[1..], b);
      assert (a + b)[1..] == a[1..] + b;
      assert Alphanumeric(a[0]) + (Alphanumerics(a[1..]) + Alphanumerics(b))
          == (Alphanumeric(a[0]) + Alphanumerics(a[1..])) + Alphanumerics(b);
    }
  }

  lemma {:induction false} AlphanumericsEmpty(s: string)
    requires forall i :: 0 <= i < |s| ==> !SlugChar(s[i]) || s[i] == '-'
    ensures Alphanumerics(s) == ""
  {
    if s != [] { AlphanumericsEmpty(s[1..]); }
  }

  lemma {:induction false} AlphanumericsReplaceRuns(s: string, inRun: bool)
    ensures Alphanumerics(ReplaceRuns(s, inRun)) == Alphanumerics(s)
  {
    if s != [] {
      var c := SlugChar(s[0]);
      AlphanumericsReplaceRuns(s[1..], !c);
      var head := if c then [s[0]] else if inRun then "" else "-";
      AlphanumericsConcat(head, ReplaceRuns(s[1..], !c));
    }
  }

  /** Trimming characters that are not alphanumeric keeps the alphanumerics. */
  lemma {:induction false} AlphanumericsTrimLeft(s: string, p: char -> bool)
    requires forall c :: p(c) ==> !SlugChar(c) || c == '-'
    ensures Alphanumerics(TrimLeft(s, p)) == Alphanumerics(s)
  {
    if s != [] && p(s[0]) {
      AlphanumericsTrimLeft(s[1..], p);
      assert TrimLeft(s, p) == TrimLeft(s[1..], p);
      assert Alphanumerics(s) == Alphanumerics(s[1..]);
    } else {
      assert TrimLeft(s, p) == s;
    }
  }

  lemma {:induction false} AlphanumericsTrimRight(s: string, p: char -> bool)
    requires forall c :: p(c) ==> !SlugChar(c) || c == '-'
    ensures Alphanumerics(TrimRight(s, p)) == Alphanumerics(s)
  {
    if s != [] && p(s[|s| - 1]) {
      var init, last := s[..|s| - 1], s[|s| - 1];
      AlphanumericsTrimRight(init, p);
      AlphanumericsConcat(init, [last]);
      assert s == init + [last];
      AlphanumericsEmpty([last]);
      hide Alphanumerics;
    }
  }

  lemma {:induction false} AlphanumericsLowerTrim(v: string)
    ensures Alphanumerics(Lower(TrimSpace(v))) == Alphanumerics(Lower(v))
  {
    LowerTrimLeft(v);
    LowerTrimRight(TrimLeft(v, IsSpace));
    AlphanumericsTrimLeft(Lower(v), IsSpace);
    AlphanumericsTrimRight(TrimLeft(Lower(v), IsSpace), IsSpace);
  }

  lemma {:induction false} LowerTrimLeft(v: string)
    ensures Lower(TrimLeft(v, IsSpace)) == TrimLeft(Lower(v), IsSpace)
  {
    if v != [] && IsSpace(v[0]) {
      LowerTrimLeft(v[1..]);
      assert Lower(v)[1..] == Lower(v[1..]);
    }
  }

  lemma {:induction false} LowerTrimRight(v: string)
    ensures Lower(TrimRight(v, IsSpace)) == TrimRight(Lower(v), IsSpace)
  {
    if v != [] && IsSpace(v[|v| - 1]) {
      LowerTrimRight(v[..|v| - 1]);
      assert Lower(v)[..|v| - 1] == Lower(v[..|v| - 1]);
    }
  }

  /** A slug keeps every letter and digit of the lower-cased text, in order. */
  lemma SlugKeepsAlphanumerics(v: string)
    ensures Alphanumerics(Slug(v)) == Alphanumerics(Lower(v))
  {
    var t := Lower(TrimSpace(v));
    AlphanumericsReplaceRuns(t, false);
    AlphanumericsTrimLeft(ReplaceRuns(t, false), IsHyphen);
    AlphanumericsTrimRight(TrimLeft(ReplaceRuns(t, false), IsHyphen), IsHyphen);
    AlphanumericsLowerTrim(v);
  }

  predicate NoSlugChars(gap: string) { forall i :: 0 <= i < |gap| ==> !SlugChar(LowerChar(gap[i])) }

  lemma {:induction false} ReplaceRunsGap(gap: string, b: string, inRun: bool)
    requires forall i :: 0 <= i < |gap| ==> !SlugChar(gap[i])
    requires forall i :: 0 <= i < |b| ==> SlugChar(b[i])
    ensures ReplaceRuns(gap + b, inRun) == (if gap == "" || inRun then "" else "-") + b
  {
    if gap == "" {
      assert gap + b == b;
      ReplaceRunsFixed(b, inRun);
    } else {
      assert (gap + b)[1..] == gap[1..] + b;
      ReplaceRunsGap(gap[1..], b, true);
    }
  }

  lemma {:induction false} ReplaceRunsBefore(a: string, rest: string, inRun: bool)
    requires a != "" && forall i :: 0 <= i < |a| ==> SlugChar(a[i])
    ensures ReplaceRuns(a + rest, inRun) == a + ReplaceRuns(rest, false)
  {
    assert (a + rest)[1..] == a[1..] + rest;
    if |a| > 1 { ReplaceRunsBefore(a[1..], rest, false); } else { assert a[1..] + rest == rest; }
  }

  /** Between two slugged texts any run of other characters, however long, becomes one hyphen. */
  lemma SlugJoins(a: string, gap: string, b: string)
    requires Slugged(a) && Slugged(b) && a != "" && b != "" && gap != "" && NoSlugChars(gap)
    ensures Slug(a + gap + b) == a + "-" + b
  {
    var all := a + gap + b;
    TrimKeepsClean(all, IsSpace);
    assert Lower(all) == a + (Lower(gap) + b);
    hide Trim;
    ReplaceRunsBefore(a, Lower(gap) + b, false);
    ReplaceRunsGap(Lower(gap), b, false);
    hide ReplaceRuns;
    assert a + ("-" + b) == a + "-" + b;
    TrimKeepsClean(a + "-" + b, IsHyphen);
  }

  lemma SluggedHasNoSeparators(s: string)
    requires Slugged(s)
    ensures Without(s, ':') && Without(s, '.')
  {}

  // ----- Hostnames -----

  predicate HasDomain(cfg: MaybeConfig) {
    cfg.Some? && TrimSpace(cfg.value.domain) != "" && TrimSpace(cfg.value.subdomain) != ""
  }

  function Zone(cfg: OverlayConfig): string {
    "." + TrimSpace(cfg.subdomain) + "." + TrimSpace(cfg.domain)
  }

  function RouteHostname(cfg: MaybeConfig, prefix: string, username: string): Option<string> {
    if !HasDomain(cfg) then None
    else
      var left := if username != "" then prefix + "." + Slug(username) else prefix;
      Some(left + Zone(cfg.value))
  }

  function GatewayHostname(cfg: MaybeConfig, username: string): Option<string> {
    RouteHostname(cfg, "gateway-" + username, "")
  }

  /** The public names: with a domain and a subdomain, and never without. */
  lemma HostnamesRead(cfg: MaybeConfig, hint: string, username: string)
    requires username != ""
    ensures GatewayHostname(cfg, username).None? <==> !HasDomain(cfg)
    ensures RouteHostname(cfg, hint, username).None? <==> !HasDomain(cfg)
    ensures HasDomain(cfg) ==>
      var zone := "." + TrimSpace(cfg.value.subdomain) + "." + TrimSpace(cfg.value.domain);
      && GatewayHostname(cfg, username) == Some("gateway-" + username + zone)
      && RouteHostname(cfg, hint, username) == Some(hint + "." + Slug(username) + zone)
  {}

  /** Two texts with the same ending are equal exactly when what precedes it is. */
  lemma SameEnding(a: string, b: string, z: string)
    ensures a + z == b + z <==> a == b
  {
    if a + z == b + z {
      assert |a| == |b|;
      assert a == (a + z)[..|a|] == (b + z)[..|b|] == b;
    }
  }

  /** Gateway hostnames of different users differ. */
  lemma GatewayHostnamesDiffer(cfg: MaybeConfig, u: string, v: string)
    requires HasDomain(cfg)
    ensures GatewayHostname(cfg, u) == GatewayHostname(cfg, v) <==> u == v
  {
    SameEnding("gateway-" + u, "gateway-" + v, Zone(cfg.value));
    if "gateway-" + u == "gateway-" + v {
      assert u == ("gateway-" + u)[8..] == ("gateway-" + v)[8..] == v;
    }
  }

  /** A plugin hostname determines its hint and the slug of its user, and nothing more. */
  lemma PluginHostnamesDiffer(cfg: MaybeConfig, h: string, u: string, k: string, v: string)
    requires HasDomain(cfg) && u != "" && v != "" && Slugged(h) && Slugged(k)
    ensures RouteHostname(cfg, h, u) == RouteHostname(cfg, k, v) <==> h == k && Slug(u) == Slug(v)
  {
    SameEnding(h + "." + Slug(u), k + "." + Slug(v), Zone(cfg.value));
    SluggedHasNoSeparators(h);
    SluggedHasNoSeparators(k);
    if h + "." + Slug(u) == k + "." + Slug(v) {
      FirstPieceUnique(h, k, '.', Slug(u), Slug(v));
    }
  }

  /** No gateway shares a hostname with a plugin route. */
  lemma GatewayIsNoPluginHostname(cfg: MaybeConfig, g: string, h: string, u: string)
    requires HasDomain(cfg) && ValidUsername(g) && u != ""
    ensures GatewayHostname(cfg, g) != RouteHostname(cfg, h, u)
  {
    ValidUsernameHasNoSeparators(g);
    SameEnding("gateway-" + g, h + "." + Slug(u), Zone(cfg.value));
    assert Without("gateway-" + g, '.');
    assert (h + "." + Slug(u))[|h|] == '.';
  }

  // ----- Route identifiers -----

  function GatewayRouteId(username: string): string { "gateway:" + username }

  function PluginPrefix(username: string): string { "plugin:" + username + ":" }

  function PluginRouteId(username: string, pluginId: string, hint: string): string {
    PluginPrefix(username) + pluginId + ":" + hint
  }

  datatype RouteIdentity = GatewayOf(username: string) | PluginOf(username: string, pluginId: string, hint: string)

  function DecodeRouteId(id: string): Option<RouteIdentity> {
    var parts := Split(id, ':');
    if |parts| == 2 && parts[0] == "gateway" then Some(GatewayOf(parts[1]))
    else if |parts| == 4 && parts[0] == "plugin" then Some(PluginOf(parts[1], parts[2], parts[3]))
    else None
  }

  /** Route IDs decode to exactly the parts they were made of. */
  lemma RouteIdsDecode(username: string, pluginId: string, hint: string)
    requires ValidUsername(username) && Slugged(pluginId) && Slugged(hint)
    ensures DecodeRouteId(GatewayRouteId(username)) == Some(GatewayOf(username))
    ensures DecodeRouteId(PluginRouteId(username, pluginId, hint)) == Some(PluginOf(username, pluginId, hint))
  {
    ValidUsernameHasNoSeparators(username);
    SluggedHasNoSeparators(pluginId);
    SluggedHasNoSeparators(hint);
    hide ValidUsername, Slugged, Split;
    SplitGatewayId(username);
    SplitPluginId(username, pluginId, hint);
  }

  lemma SplitGatewayId(username: string)
    requires Without(username, ':')
    ensures Split(GatewayRouteId(username), ':') == ["gateway", username]
  {
    assert GatewayRouteId(username) == "gateway" + [':'] + username;
    SplitFirst("gateway", ':', username);
    SplitClean(username, ':');
    hide Split;
  }

  lemma SplitPluginId(username: string, pluginId: string, hint: string)
    requires Without(username, ':') && Without(pluginId, ':') && Without(hint, ':')
    ensures Split(PluginRouteId(username, pluginId, hint), ':') == ["plugin", username, pluginId, hint]
  {
    hide Split;
    var tail := pluginId + [':'] + hint;
    assert PluginRouteId(username, pluginId, hint) == "plugin" + [':'] + (username + [':'] + tail);
    assert Without("plugin", ':');
    hide Without;
    SplitFirst("plugin", ':', username + [':'] + tail);
    SplitFirst(username, ':', tail);
    SplitFirst(pluginId, ':', hint);
    SplitClean(hint, ':');
  }

  /** Different parts give different plugin route IDs. */
  lemma PluginRouteIdsDiffer(u: string, p: string, h: string, v: string, q: string, k: string)
    requires ValidUsername(u) && ValidUsername(v) && Slugged(p) && Slugged(q) && Slugged(h) && Slugged(k)
    ensures PluginRouteId(u, p, h) == PluginRouteId(v, q, k) <==> u == v && p == q && h == k
  {
    RouteIdsDecode(u, p, h);
    RouteIdsDecode(v, q, k);
  }

  // ----- Names in a reachable store -----

  /** The rows the service writes: the ID and the hostname are functions of the row's identity. */
  predicate WellNamedRow(cfg: MaybeConfig, r: Route) {
    match r.kind
    case Gateway => r.id == GatewayRouteId(r.username) && Some(r.hostname) == GatewayHostname(cfg, r.username)
    case Plugin =>
      match DecodeRouteId(r.id)
      case Some(PluginOf(u, p, h)) =>
        && u == r.username && Slugged(p) && Slugged(h) && r.pluginId == p
        && r.id == PluginRouteId(u, p, h)
        && Some(r.hostname) == RouteHostname(cfg, h, u)
      case _ => false
  }

  predicate WellNamed(cfg: MaybeConfig, db: Db) {
    && (forall u :: u in db.users ==> ValidUsername(u))
    && (forall id :: id in db.routes ==> WellNamedRow(cfg, db.routes[id]))
  }

  /** The domain settings fit on one line. */
  predicate OneLineDomain(cfg: MaybeConfig) {
    cfg.Some? ==> Without(TrimSpace(cfg.value.domain), '\n') && Without(TrimSpace(cfg.value.subdomain), '\n')
  }

  /** Hostnames of well-named rows fit on one line. */
  lemma WellNamedHostnames(cfg: MaybeConfig, r: Route)
    requires WellNamedRow(cfg, r) && ValidUsername(r.username) && OneLineDomain(cfg)
    ensures Without(r.hostname, '\n')
  {
    hide ValidUsername, PluginRouteId, GatewayRouteId, Slug;
    ValidUsernameChars(r.username);
    SlugIsSlugged(r.username);
    assert Without(Zone(cfg.value), '\n');
    if r.kind == Plugin {
      var hint := DecodeRouteId(r.id).value.hint;
      hide DecodeRouteId;
      assert Without(hint + "." + Slug(r.username), '\n') || r.username == "";
    } else {
      assert Without("gateway-" + r.username, '\n');
    }
  }

  predicate HasPrefix(s: string, prefix: string) { prefix <= s }

  /** An identifier starting with a user's plugin prefix decodes to that user. */
  lemma PrefixNamesOwner(username: string, owner: string, rest: string, id: string)
    requires ValidUsername(username) && ValidUsername(owner)
    requires id == PluginPrefix(owner) + rest
    ensures HasPrefix(id, PluginPrefix(username)) <==> owner == username
  {
    ValidUsernameHasNoSeparators(username);
    ValidUsernameHasNoSeparators(owner);
    if HasPrefix(id, PluginPrefix(username)) {
      var other := id[|PluginPrefix(username)|..];
      assert id == PluginPrefix(username) + other;
      assert id[7..] == username + ":" + other;
      assert id[7..] == owner + ":" + rest;
      FirstPieceUnique(username, owner, ':', other, rest);
    }
  }

  /** The ownership check of plugin deletion: an accepted ID names a plugin route of that user. */
  lemma PrefixCheckMeansOwnership(cfg: MaybeConfig, db: Db, username: string, id: string)
    requires Integrity(db) && WellNamed(cfg, db) && ValidUsername(username) && id in db.routes
    ensures HasPrefix(id, PluginPrefix(username))
      <==> db.routes[id].kind == Plugin && db.routes[id].username == username
  {
    hide Integrity, WellNamed, ValidUsername, DecodeRouteId, PluginRouteId, RouteHostname, GatewayHostname,
         PluginPrefix;
    var row := db.routes[id];
    RowFacts(cfg, db, id);
    if row.kind == Gateway {
      PrefixesDiffer(row.username, username);
    } else {
      var identity := DecodeRouteId(id).value;
      PluginIdStarts(row.username, identity.pluginId, identity.hint);
      PrefixNamesOwner(username, row.username, identity.pluginId + ":" + identity.hint, id);
    }
  }

  lemma PluginIdStarts(u: string, p: string, h: string)
    ensures PluginRouteId(u, p, h) == PluginPrefix(u) + (p + ":" + h)
  {}

  lemma PrefixesDiffer(u: string, v: string)
    ensures !HasPrefix(GatewayRouteId(u), PluginPrefix(v))
  {
    assert GatewayRouteId(u)[0] == 'g' && PluginPrefix(v)[0] == 'p';
  }

  /** What a reachable store says about one row. */
  lemma RowFacts(cfg: MaybeConfig, db: Db, id: string)
    requires Integrity(db) && WellNamed(cfg, db) && id in db.routes
    ensures db.routes[id].id == id && WellNamedRow(cfg, db.routes[id])
    ensures db.routes[id].username in db.users && ValidUsername(db.routes[id].username)
  {
    hide WellNamedRow, ValidUsername;
  }
}
