/** The route service: each operation changes the store and republishes the whole table. */
module Api {
  import opened Text
  import opened State
  import opened Identity
  import Ingress
  import Tunnel

  datatype ApiError = Stored(cause: StoreError) | BadRequest | Forbidden | NoDomain
    | Publishing(reason: Tunnel.PublishError)

  /** The service's settings; without a publisher the table is only recorded. */
  datatype Service = Service(cfg: MaybeConfig, publisher: Option<Tunnel.Settings>)

  datatype System = System(db: Db, host: Tunnel.Host)

  datatype Op =
    | UpsertGateway(username: string, port: int)
    | UpsertPlugin(username: string, pluginId: string, hint: string, port: int)
    | DeleteGateway(username: string)
    | DeletePlugin(username: string, id: string)
    | SetEnabled(username: string, enabled: bool)
    | Reload

  /** What the environment decides during one operation. */
  datatype Env = Env(backupPath: string, faults: Tunnel.Faults)

  datatype Changed = Changed(db: Db, route: Option<Route>, err: Option<ApiError>)

  function Rejected(db: Db, e: ApiError): Changed { Changed(db, None, Some(e)) }

  function PutChange(db: Db, r: Route): Changed {
    var o := PutRoute(db, r);
    if o.err.Some? then Rejected(o.db, Stored(o.err.value)) else Changed(o.db, Some(r), None)
  }

  function GatewayRoute(username: string, port: int, hostname: string): Route {
    Route(GatewayRouteId(username), username, Gateway, "", port, hostname, true)
  }

  function PluginRoute(username: string, pluginId: string, hint: string, port: int, hostname: string): Route {
    Route(PluginRouteId(username, pluginId, hint), username, Plugin, pluginId, port, hostname, true)
  }

  /** The change an operation makes to the store, before publication. */
  function Change(cfg: MaybeConfig, db: Db, op: Op): Changed {
    match op
    case UpsertGateway(u, port) =>
      if u !in db.users then Rejected(db, Stored(NoUser))
      else
        var host := GatewayHostname(cfg, u);
        if host.None? then Rejected(db, NoDomain)
        else PutChange(db, GatewayRoute(u, if port <= 0 then db.users[u].port else port, host.value))
    case UpsertPlugin(u, rawPlugin, rawHint, port) =>
      if u !in db.users then Rejected(db, Stored(NoUser))
      else
        var plugin, hint := Slug(rawPlugin), Slug(rawHint);
        if plugin == "" || hint == "" || port <= 0 then Rejected(db, BadRequest)
        else
          var host := RouteHostname(cfg, hint, u);
          if host.None? then Rejected(db, NoDomain)
          else PutChange(db, PluginRoute(u, plugin, hint, port, host.value))
    case DeleteGateway(u) => Changed(DeleteRoute(db, GatewayRouteId(u)).db, None, None)
    case DeletePlugin(u, id) =>
      if !HasPrefix(id, PluginPrefix(u)) then Rejected(db, Forbidden)
      else
        var o := DeleteRoute(db, id);
        Changed(o.db, None, if o.err.Some? then Some(Stored(o.err.value)) else None)
    case SetEnabled(u, on) =>
      if u !in db.users then Rejected(db, Stored(NoUser))
      else Changed(SetRoutesEnabled(db, u, on).db, None, None)
    case Reload => Changed(db, None, None)
  }

  // ----- Publication of a table -----

  /** Some listing of the table. */
  ghost function SomeListing(table: map<string, Route>): seq<Route>
    decreases |table|
  {
    if table == map[] then []
    else
      assert table.Keys != {};
      var id :| id in table;
      assert |table - {id}| < |table| by { assert (table - {id}).Keys == table.Keys - {id}; }
      [table[id]] + SomeListing(table - {id})
  }

  lemma ListsCons(table: map<string, Route>, id: string, rest: map<string, Route>, rows: seq<Route>)
    requires id in table && table[id].id == id && rest == table - {id} && Lists(rows, rest)
    ensures Lists([table[id]] + rows, table)
  {
    var all := [table[id]] + rows;
    forall k | k in table ensures table[k] in all {
      if k == id { assert all[0] == table[k]; } else { assert k in rest && rest[k] in rows; }
    }
    forall i | 0 <= i < |all| ensures all[i].id in table && table[all[i].id] == all[i] {
      if i > 0 { assert all[i] == rows[i - 1] && rows[i - 1].id in rest; }
    }
    forall i, j | 0 <= i < j < |all| ensures all[i].id != all[j].id {
      assert all[j] == rows[j - 1] && rows[j - 1].id in rest;
      if i > 0 { assert all[i] == rows[i - 1]; }
    }
  }

  lemma {:induction false} SomeListingLists(table: map<string, Route>)
    requires forall k :: k in table ==> table[k].id == k
    ensures Lists(SomeListing(table), table)
    decreases |table|
  {
    if table != map[] {
      assert table.Keys != {};
      var id :| id in table && SomeListing(table) == [table[id]] + SomeListing(table - {id});
      var rest := table - {id};
      assert rest.Keys == table.Keys - {id};
      SomeListingLists(rest);
      ListsCons(table, id, rest, SomeListing(rest));
    }
  }

  /** Every listing of a table renders to the same text, so the order in which the database
      returns rows does not matter. */
  lemma ListingsRenderAlike(cfg: MaybeConfig, table: map<string, Route>, a: seq<Route>, b: seq<Route>)
    requires Lists(a, table) && Lists(b, table)
    ensures Ingress.Render(cfg, a) == Ingress.Render(cfg, b)
  {
    forall x: Route | x.enabled ensures x in a <==> x in b {}
    Ingress.RenderIsCanonical(cfg, a, b);
  }

  datatype Stepped = Stepped(sys: System, route: Option<Route>, err: Option<ApiError>)

  ghost function Republish(sv: Service, db: Db, host: Tunnel.Host, env: Env): Tunnel.Published {
    if sv.publisher.None? then Tunnel.Published(host, Tunnel.Summary("", false), None)
    else Tunnel.Publish(sv.publisher.value, SomeListing(db.routes), host, env.backupPath, env.faults)
  }

  ghost function Step(sv: Service, sys: System, op: Op, env: Env): Stepped {
    var c := Change(sv.cfg, sys.db, op);
    if c.err.Some? then Stepped(System(c.db, sys.host), c.route, c.err)
    else
      var p := Republish(sv, c.db, sys.host, env);
      Stepped(System(c.db, p.host), c.route, if p.err.Some? then Some(Publishing(p.err.value)) else None)
  }

  ghost function Run(sv: Service, sys: System, history: seq<(Op, Env)>): System
    decreases |history|
  {
    if history == [] then sys else Run(sv, Step(sv, sys, history[0].0, history[0].1).sys, history[1..])
  }

  // ----- What every operation keeps -----

  predicate Sound(cfg: MaybeConfig, db: Db) { Integrity(db) && WellNamed(cfg, db) }

  lemma PutKeepsSound(cfg: MaybeConfig, db: Db, r: Route)
    requires Sound(cfg, db) && WellNamedRow(cfg, r)
    ensures Sound(cfg, PutRoute(db, r).db)
  {
    hide Integrity, WellNamedRow, ValidUsername;
    PutRouteAcceptsLegalTables(db, r);
  }

  lemma GatewayRowIsWellNamed(cfg: MaybeConfig, username: string, port: int)
    requires HasDomain(cfg)
    ensures WellNamedRow(cfg, GatewayRoute(username, port, GatewayHostname(cfg, username).value))
  {}

  lemma PluginRowIsWellNamed(cfg: MaybeConfig, username: string, plugin: string, hint: string, port: int)
    requires ValidUsername(username) && HasDomain(cfg)
    ensures var host := RouteHostname(cfg, Slug(hint), username).value;
      WellNamedRow(cfg, PluginRoute(username, Slug(plugin), Slug(hint), port, host))
  {
    SlugIsSlugged(plugin);
    SlugIsSlugged(hint);
    RouteIdsDecode(username, Slug(plugin), Slug(hint));
  }

  lemma NamesIgnoreEnabled(cfg: MaybeConfig, r: Route, on: bool)
    requires WellNamedRow(cfg, r)
    ensures WellNamedRow(cfg, r.(enabled := on))
  {}

  lemma EnablingKeepsNames(cfg: MaybeConfig, db: Db, username: string, on: bool)
    requires WellNamed(cfg, db)
    ensures WellNamed(cfg, SetRoutesEnabled(db, username, on).db)
  {
    hide WellNamedRow, ValidUsername;
    var next := SetRoutesEnabled(db, username, on).db;
    forall id | id in next.routes ensures WellNamedRow(cfg, next.routes[id]) {
      NamesIgnoreEnabled(cfg, db.routes[id], on);
    }
  }

  lemma EnablingKeepsSound(cfg: MaybeConfig, db: Db, username: string, on: bool)
    requires Sound(cfg, db)
    ensures Sound(cfg, SetRoutesEnabled(db, username, on).db)
  {
    hide Integrity, WellNamed;
    StatementKeepsIntegrity(db, SSetRoutesEnabled(username, on));
    EnablingKeepsNames(cfg, db, username, on);
  }

  lemma UpsertsKeepSound(cfg: MaybeConfig, db: Db, op: Op)
    requires Sound(cfg, db) && (op.UpsertGateway? || op.UpsertPlugin?)
    ensures Sound(cfg, Change(cfg, db, op).db)
  {
    hide Integrity, ValidUsername, WellNamedRow, Slug;
    if op.username in db.users && HasDomain(cfg) {
      var u := op.username;
      if op.UpsertGateway? {
        var port := if op.port <= 0 then db.users[u].port else op.port;
        GatewayRowIsWellNamed(cfg, u, port);
        PutKeepsSound(cfg, db, GatewayRoute(u, port, GatewayHostname(cfg, u).value));
      } else {
        var host := RouteHostname(cfg, Slug(op.hint), u).value;
        PluginRowIsWellNamed(cfg, u, op.pluginId, op.hint, op.port);
        PutKeepsSound(cfg, db, PluginRoute(u, Slug(op.pluginId), Slug(op.hint), op.port, host));
      }
    }
  }

  lemma DeletionKeepsSound(cfg: MaybeConfig, db: Db, id: string)
    requires Sound(cfg, db)
    ensures Sound(cfg, DeleteRoute(db, id).db)
  {
    hide Integrity, WellNamedRow, ValidUsername;
    StatementKeepsIntegrity(db, SDeleteRoute(id));
  }

  /** Unique ports and hostnames, owned rows and rows named after their identity survive
      every operation. */
  lemma ChangeKeepsSound(cfg: MaybeConfig, db: Db, op: Op)
    requires Sound(cfg, db)
    ensures Sound(cfg, Change(cfg, db, op).db)
  {
    match op
    case UpsertGateway(_, _) => UpsertsKeepSound(cfg, db, op);
    case UpsertPlugin(_, _, _, _) => UpsertsKeepSound(cfg, db, op);
    case DeleteGateway(u) => DeletionKeepsSound(cfg, db, GatewayRouteId(u));
    case DeletePlugin(u, id) => DeletionKeepsSound(cfg, db, id);
    case SetEnabled(u, on) => EnablingKeepsSound(cfg, db, u, on);
    case Reload =>
  }

  lemma {:induction false} RunKeepsSound(sv: Service, sys: System, history: seq<(Op, Env)>)
    requires Sound(sv.cfg, sys.db)
    ensures Sound(sv.cfg, Run(sv, sys, history).db)
    decreases |history|
  {
    if history != [] {
      ChangeKeepsSound(sv.cfg, sys.db, history[0].0);
      RunKeepsSound(sv, Step(sv, sys, history[0].0, history[0].1).sys, history[1..]);
    }
  }

  // ----- Level-triggered agreement -----

  /** File and tunnel carry the whole table: the file is the rendering of every listing of it,
      and lookup in the parsed file answers for every hostname what the table promises. */
  ghost predicate Published(sv: Service, sys: System)
    requires sv.publisher.Some?
  {
    var path := sv.publisher.value.path;
    && path in sys.host.files
    && sys.host.files[path] == sys.host.loaded
    && (forall listing :: Lists(listing, sys.db.routes) ==>
          Ingress.Render(sv.publisher.value.cfg, listing) == Ok(sys.host.files[path]))
    && Ingress.ParseConfig(sys.host.loaded).Some?
    && (forall hostname :: Ingress.Serves(sys.db.routes, hostname,
          Ingress.Lookup(Ingress.ParseConfig(sys.host.loaded).value.rules, hostname)))
  }

  predicate OneLineSettings(s: Tunnel.Settings) {
    OneLineDomain(s.cfg) && (s.cfg.Some? ==> Ingress.OneLine(s.cfg.value))
  }

  /** An operation that returns no error leaves the whole table published, whatever the
      tunnel and its file looked like before. */
  lemma SuccessMeansPublished(sv: Service, sys: System, op: Op, env: Env)
    requires Sound(sv.cfg, sys.db) && sv.publisher.Some? && sv.publisher.value.cfg == sv.cfg
    requires OneLineSettings(sv.publisher.value) && env.backupPath != sv.publisher.value.path
    requires Step(sv, sys, op, env).err.None?
    ensures Published(sv, Step(sv, sys, op, env).sys)
  {
    var s := sv.publisher.value;
    var c := Change(sv.cfg, sys.db, op);
    var table := c.db.routes;
    var some := SomeListing(table);
    ChangeKeepsSound(sv.cfg, sys.db, op);
    SomeListingLists(table);
    Tunnel.PublishOutcome(s, some, sys.host, env.backupPath, env.faults);
    forall listing | Lists(listing, table)
      ensures Ingress.Render(s.cfg, listing) == Ingress.Render(s.cfg, some)
    {
      ListingsRenderAlike(s.cfg, table, listing, some);
    }
    forall id | id in table ensures Without(table[id].hostname, '\n') {
      WellNamedHostnames(sv.cfg, table[id]);
    }
    forall hostname: string
      ensures Ingress.ParseConfig(Ingress.Render(s.cfg, some).value).Some?
      ensures Ingress.Serves(table, hostname,
          Ingress.Lookup(Ingress.ParseConfig(Ingress.Render(s.cfg, some).value).value.rules, hostname))
    {
      Ingress.RenderedTableServes(s.cfg, table, some, hostname);
    }
    assert Ingress.ParseConfig(Ingress.Render(s.cfg, some).value).Some? by {
      Ingress.RenderedTableServes(s.cfg, table, some, "");
    }
  }

  /** After any history of operations, including ones whose publication failed anywhere, the
      next operation that returns no error brings store, file and tunnel into agreement. */
  lemma AgreementAfterAnyHistory(sv: Service, sys: System, history: seq<(Op, Env)>, op: Op, env: Env)
    requires Sound(sv.cfg, sys.db) && sv.publisher.Some? && sv.publisher.value.cfg == sv.cfg
    requires OneLineSettings(sv.publisher.value) && env.backupPath != sv.publisher.value.path
    requires Step(sv, Run(sv, sys, history), op, env).err.None?
    ensures Published(sv, Step(sv, Run(sv, sys, history), op, env).sys)
  {
    RunKeepsSound(sv, sys, history);
    SuccessMeansPublished(sv, Run(sv, sys, history), op, env);
  }

  // ----- Acceptance and ownership -----

  lemma UserFacts(cfg: MaybeConfig, db: Db, username: string)
    requires WellNamed(cfg, db) && username in db.users
    ensures ValidUsername(username) && username != ""
  {}

  /** In a reachable store a gateway upsert is never refused by the unique hostname. */
  lemma GatewayUpsertIsAccepted(cfg: MaybeConfig, db: Db, username: string, port: int)
    requires Sound(cfg, db) && username in db.users && HasDomain(cfg)
    ensures Change(cfg, db, UpsertGateway(username, port)).err.None?
  {
    hide Integrity, WellNamed, ValidUsername, Slug, PluginRouteId, DecodeRouteId;
    var host := GatewayHostname(cfg, username).value;
    UserFacts(cfg, db, username);
    forall k | k in db.routes && k != GatewayRouteId(username) ensures db.routes[k].hostname != host {
      var row := db.routes[k];
      RowFacts(cfg, db, k);
      UserFacts(cfg, db, row.username);
      if row.kind == Gateway {
        GatewayHostnamesDiffer(cfg, username, row.username);
      } else {
        GatewayIsNoPluginHostname(cfg, username, DecodeRouteId(row.id).value.hint, row.username);
      }
    }
  }

  /** A rejected change leaves the tables as they were, and the operation then publishes nothing. */
  lemma RejectionChangesNothing(sv: Service, sys: System, op: Op, env: Env)
    requires Sound(sv.cfg, sys.db) && Change(sv.cfg, sys.db, op).err.Some?
    ensures Step(sv, sys, op, env).sys == sys && Step(sv, sys, op, env).err == Change(sv.cfg, sys.db, op).err
    ensures Step(sv, sys, op, env).route == None
  {
    hide Integrity, WellNamed, RouteHostname, GatewayHostname, Slug, HostnameTaken;
  }

  /** Opening a gateway needs the user and a domain. It writes this one row, with the user's port unless
      another is given. */
  lemma GatewayUpsertIsExact(cfg: MaybeConfig, db: Db, u: string, port: int)
    requires Sound(cfg, db)
    ensures var c := Change(cfg, db, UpsertGateway(u, port));
      if u !in db.users then c == Changed(db, None, Some(Stored(NoUser)))
      else if !HasDomain(cfg) then c == Changed(db, None, Some(NoDomain))
      else
        var host := "gateway-" + u + ("." + TrimSpace(cfg.value.subdomain) + "." + TrimSpace(cfg.value.domain));
        var row := Route("gateway:" + u, u, Gateway, "", if port > 0 then port else db.users[u].port, host, true);
        c == Changed(db.(routes := db.routes["gateway:" + u := row]), Some(row), None)
  {
    if u in db.users {
      UserFacts(cfg, db, u);
      HostnamesRead(cfg, "", u);
      if HasDomain(cfg) { GatewayUpsertIsAccepted(cfg, db, u, port); }
    }
    hide Sound, GatewayHostname, HasDomain, HostnameTaken, TrimSpace;
  }

  /** Opening a plugin route needs the user, two slugs, a port, a domain and a hint that nobody holds. It
      writes this one row. */
  lemma PluginUpsertIsExact(cfg: MaybeConfig, db: Db, u: string, plugin: string, hint: string, port: int)
    requires Sound(cfg, db)
    ensures var c, p, h := Change(cfg, db, UpsertPlugin(u, plugin, hint, port)), Slug(plugin), Slug(hint);
      if u !in db.users then c == Changed(db, None, Some(Stored(NoUser)))
      else if p == "" || h == "" || port <= 0 then c == Changed(db, None, Some(BadRequest))
      else if !HasDomain(cfg) then c == Changed(db, None, Some(NoDomain))
      else
        var id := "plugin:" + u + ":" + p + ":" + h;
        var host := h + "." + Slug(u) + ("." + TrimSpace(cfg.value.subdomain) + "." + TrimSpace(cfg.value.domain));
        var row := Route(id, u, Plugin, p, port, host, true);
        c == if HintTaken(db, u, id, h) then Changed(db, None, Some(Stored(Constraint)))
             else Changed(db.(routes := db.routes[id := row]), Some(row), None)
  {
    var p, h := Slug(plugin), Slug(hint);
    var id := "plugin:" + u + ":" + p + ":" + h;
    if u in db.users {
      UserFacts(cfg, db, u);
      HostnamesRead(cfg, h, u);
      assert PluginRouteId(u, p, h) == id;
      if p != "" && h != "" && port > 0 && HasDomain(cfg) { PluginUpsertRefusal(cfg, db, u, plugin, hint, port); }
    }
    hide Sound, RouteHostname, PluginRouteId, HasDomain, HostnameTaken, HintTaken, TrimSpace, Slug;
  }

  /** A gateway is deleted whether or not it is there; a plugin route only if it is there and has the
      user's prefix. Neither touches another row. */
  lemma DeletionsAreExact(cfg: MaybeConfig, db: Db, u: string, id: string)
    ensures Change(cfg, db, DeleteGateway(u)) == Changed(db.(routes := db.routes - {"gateway:" + u}), None, None)
    ensures Change(cfg, db, DeletePlugin(u, id)) ==
      if !(("plugin:" + u + ":") <= id) then Changed(db, None, Some(Forbidden))
      else if id !in db.routes then Changed(db, None, Some(Stored(NoRoute)))
      else Changed(db.(routes := db.routes - {id}), None, None)
  {
    if GatewayRouteId(u) !in db.routes { assert db.routes - {GatewayRouteId(u)} == db.routes; }
  }

  /** The switch reaches every route of a user that is there, and nothing but its flag. */
  lemma SwitchIsExact(cfg: MaybeConfig, db: Db, u: string, on: bool)
    ensures var c := Change(cfg, db, SetEnabled(u, on));
      if u !in db.users then c == Changed(db, None, Some(Stored(NoUser)))
      else
        && c == Changed(db.(routes := c.db.routes), None, None) && c.db.routes.Keys == db.routes.Keys
        && forall id :: id in db.routes ==>
          c.db.routes[id] == db.routes[id].(enabled := if db.routes[id].username == u then on
                                                       else db.routes[id].enabled)
  {}

  /** Row `k` is a plugin route with this hint of a user with the same slug. */
  predicate HoldsHint(db: Db, k: string, username: string, hint: string)
    requires k in db.routes
  {
    && db.routes[k].kind == Plugin
    && DecodeRouteId(k).Some? && DecodeRouteId(k).value.PluginOf?
    && DecodeRouteId(k).value.hint == hint && Slug(db.routes[k].username) == Slug(username)
  }

  predicate HintTaken(db: Db, username: string, id: string, hint: string) {
    exists k :: k in db.routes && k != id && HoldsHint(db, k, username, hint)
  }

  /** In a reachable store a plugin upsert with usable arguments is refused exactly when another
      plugin route of a user with the same slug has the same slugged hint. */
  lemma PluginUpsertRefusal(cfg: MaybeConfig, db: Db, username: string, plugin: string, hint: string, port: int)
    requires Sound(cfg, db) && username in db.users && HasDomain(cfg)
    requires Slug(plugin) != "" && Slug(hint) != "" && port > 0
    ensures Change(cfg, db, UpsertPlugin(username, plugin, hint, port)).err.Some?
      <==> HintTaken(db, username, PluginRouteId(username, Slug(plugin), Slug(hint)), Slug(hint))
  {
    hide Integrity, WellNamed, ValidUsername, Slug, PluginRouteId, DecodeRouteId;
    var id := PluginRouteId(username, Slug(plugin), Slug(hint));
    var host := RouteHostname(cfg, Slug(hint), username).value;
    SlugIsSlugged(hint);
    UserFacts(cfg, db, username);
    forall k | k in db.routes && k != id
      ensures db.routes[k].hostname == host <==> HoldsHint(db, k, username, Slug(hint))
    {
      var row := db.routes[k];
      RowFacts(cfg, db, k);
      UserFacts(cfg, db, row.username);
      if row.kind == Gateway {
        GatewayIsNoPluginHostname(cfg, row.username, Slug(hint), username);
      } else {
        PluginHostnamesDiffer(cfg, DecodeRouteId(k).value.hint, row.username, Slug(hint), username);
      }
    }
  }

  /** After any history, a plugin deletion that succeeds removed exactly one row, and that row
      was a plugin route of the caller. */
  lemma DeletionsStayAtHome(sv: Service, sys: System, history: seq<(Op, Env)>, username: string, id: string)
    requires Sound(sv.cfg, sys.db) && ValidUsername(username)
    ensures var db := Run(sv, sys, history).db;
      var c := Change(sv.cfg, db, DeletePlugin(username, id));
      c.err.None? ==> (
        && id in db.routes && db.routes[id].username == username && db.routes[id].kind == Plugin
        && c.db == db.(routes := db.routes - {id}))
  {
    RunKeepsSound(sv, sys, history);
    var db := Run(sv, sys, history).db;
    if id in db.routes { PrefixCheckMeansOwnership(sv.cfg, db, username, id); }
  }

  // ----- The service object -----

  class RouteService {
    const cfg: MaybeConfig
    const store: Store
    const publisher: Tunnel.Manager?

    constructor (cfg: MaybeConfig, store: Store, publisher: Tunnel.Manager?)
      ensures this.cfg == cfg && this.store == store && this.publisher == publisher
    {
      this.cfg, this.store, this.publisher := cfg, store, publisher;
    }

    ghost function Setup(): Service {
      Service(cfg, if publisher == null then None else Some(publisher.settings))
    }

    ghost function Footprint(): set<object> {
      {store} + (if publisher == null then {} else {publisher})
    }

    ghost function View(): System
      reads Footprint()
    {
      System(store.View(), if publisher == null then Tunnel.Host(map[], "", []) else publisher.View())
    }

    method Publish(env: Env) returns (err: Option<ApiError>)
      requires PrimaryKeys(store.View())
      modifies publisher
      ensures store.View() == old(store.View())
      ensures var p := Republish(Setup(), store.View(), old(View().host), env);
        View().host == p.host && err == (if p.err.Some? then Some(Publishing(p.err.value)) else None)
    {
      if publisher == null { return None; }
      var rows := store.ListRoutes();
      SomeListingLists(store.routes);
      ListingsRenderAlike(publisher.settings.cfg, store.routes, rows, SomeListing(store.routes));
      var _, e := publisher.PublishWithSummary(rows, env.backupPath, env.faults);
      err := if e.Some? then Some(Publishing(e.value)) else None;
    }

    method PutAndPublish(route: Route, env: Env) returns (r: Option<Route>, err: Option<ApiError>)
      requires PrimaryKeys(store.View())
      modifies store, publisher
      ensures var c := PutChange(old(store.View()), route);
        if c.err.Some? then Stepped(View(), r, err) == Stepped(System(c.db, old(View().host)), c.route, c.err)
        else var p := Republish(Setup(), c.db, old(View().host), env);
          Stepped(View(), r, err)
            == Stepped(System(c.db, p.host), c.route, if p.err.Some? then Some(Publishing(p.err.value)) else None)
    {
      var e := store.UpsertRoute(route);
      if e.Some? { return None, Some(Stored(e.value)); }
      var pe := Publish(env);
      return Some(route), pe;
    }

    method UpsertGatewayRoute(username: string, port: int, env: Env) returns (r: Option<Route>, err: Option<ApiError>)
      requires PrimaryKeys(store.View())
      modifies store, publisher
      ensures Stepped(View(), r, err) == Step(Setup(), old(View()), UpsertGateway(username, port), env)
    {
      var user := store.GetUser(username);
      if user.Err? { return None, Some(Stored(user.error)); }
      var p := port;
      if p <= 0 { p := user.value.port; }
      var hostname := GatewayHostname(cfg, username);
      if hostname.None? { return None, Some(NoDomain); }
      r, err := PutAndPublish(GatewayRoute(username, p, hostname.value), env);
    }

    method UpsertPluginRoute(username: string, pluginId: string, hint: string, port: int, env: Env)
      returns (r: Option<Route>, err: Option<ApiError>)
      requires PrimaryKeys(store.View())
      modifies store, publisher
      ensures Stepped(View(), r, err) == Step(Setup(), old(View()), UpsertPlugin(username, pluginId, hint, port), env)
    {
      var user := store.GetUser(username);
      if user.Err? { return None, Some(Stored(user.error)); }
      var plugin := Slug(pluginId);
      var host := Slug(hint);
      if plugin == "" || host == "" || port <= 0 { return None, Some(BadRequest); }
      var hostname := RouteHostname(cfg, host, username);
      if hostname.None? { return None, Some(NoDomain); }
      r, err := PutAndPublish(PluginRoute(username, plugin, host, port, hostname.value), env);
    }

    method DeleteGatewayRoute(username: string, env: Env) returns (err: Option<ApiError>)
      requires PrimaryKeys(store.View())
      modifies store, publisher
      ensures Stepped(View(), None, err) == Step(Setup(), old(View()), DeleteGateway(username), env)
    {
      var _ := store.RemoveRoute(GatewayRouteId(username));  // a missing row is not an error here
      err := Publish(env);
    }

    method DeletePluginRoute(username: string, id: string, env: Env) returns (err: Option<ApiError>)
      requires PrimaryKeys(store.View())
      modifies store, publisher
      ensures Stepped(View(), None, err) == Step(Setup(), old(View()), DeletePlugin(username, id), env)
    {
      if !HasPrefix(id, PluginPrefix(username)) { return Some(Forbidden); }
      var e := store.RemoveRoute(id);
      if e.Some? { return Some(Stored(e.value)); }
      err := Publish(env);
    }

    method SetRoutesOn(username: string, enabled: bool, env: Env) returns (err: Option<ApiError>)
      requires PrimaryKeys(store.View())
      modifies store, publisher
      ensures Stepped(View(), None, err) == Step(Setup(), old(View()), SetEnabled(username, enabled), env)
    {
      var user := store.GetUser(username);
      if user.Err? { return Some(Stored(user.error)); }
      var _ := store.EnableRoutes(username, enabled);
      err := Publish(env);
    }
  }
}
