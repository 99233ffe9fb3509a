/** The route service beside the user operations: which of its changes fit the status of a user. */
module RouteChanges {
  import opened Text
  import opened State
  import opened Identity
  import opened Lifecycle
  import Api

  predicate IsActive(db: Db, username: string) { username in db.users && db.users[username].status == Active }

  predicate IsPaused(db: Db, username: string) { username in db.users && db.users[username].status == Paused }

  predicate HasRoutes(db: Db, username: string) {
    exists id :: id in db.routes && db.routes[id].username == username
  }

  /** The plugin route is refused before it reaches the table. */
  predicate Refused(cfg: MaybeConfig, db: Db, username: string, plugin: string, hint: string, port: int) {
    || username !in db.users || Slug(plugin) == "" || Slug(hint) == "" || port <= 0 || !HasDomain(cfg)
    || Api.HintTaken(db, username, PluginRouteId(username, Slug(plugin), Slug(hint)), Slug(hint))
  }

  /** The change fits the status of its user. The service itself never looks at the status. */
  predicate Suits(cfg: MaybeConfig, db: Db, op: Api.Op) {
    match op
    case UpsertGateway(u, port) =>
      u !in db.users || !HasDomain(cfg) || (IsActive(db, u) && (port <= 0 || port == db.users[u].port))
    case UpsertPlugin(u, plugin, hint, port) => Refused(cfg, db, u, plugin, hint, port) || !IsPaused(db, u)
    case DeleteGateway(u) => !IsActive(db, u)
    case DeletePlugin(_, _) => true
    case SetEnabled(u, on) =>
      u !in db.users || (if on then IsActive(db, u) || !HasRoutes(db, u) else IsPaused(db, u))
    case Reload => true
  }

  /** A change of routes leaves users and backups alone. */
  lemma ChangeKeepsUsers(cfg: MaybeConfig, db: Db, op: Api.Op)
    ensures var next := Api.Change(cfg, db, op).db;
      next.users == db.users && next.backups == db.backups && next.admins == db.admins
  {
    hide GatewayHostname, RouteHostname, Slug, HostnameTaken;
  }

  // ----- Each change -----

  /** An enabled gateway row suits exactly an active user with that port. */
  lemma GatewayRowSuits(db: Db, row: Route)
    requires Settled(db) && row.username in db.users && db.users[row.username].status != Unset
    requires row.enabled && row.kind == Gateway && row.id == GatewayRouteId(row.username)
    requires row.id in db.routes ==> db.routes[row.id].username == row.username
    ensures Settled(WithRoute(db, row)) <==> IsActive(db, row.username) && row.localPort == db.users[row.username].port
  {
    hide Settled, OthersAlike, GatewayRouteId;
    PutAlike(db, row);
    OneUserDecides(db, WithRoute(db, row), row.username);
    assert WithRoute(db, row).routes[row.id] == row;
  }

  lemma GatewaySuits(cfg: MaybeConfig, db: Db, u: string, port: int)
    requires Api.Sound(cfg, db) && Settled(db)
    ensures Settled(Api.Change(cfg, db, Api.UpsertGateway(u, port)).db) <==> Suits(cfg, db, Api.UpsertGateway(u, port))
  {
    hide Api.Sound, Settled, GatewayRouteId, HostnameTaken;
    if u in db.users && HasDomain(cfg) {
      var p := if port <= 0 then db.users[u].port else port;
      GatewaySlotIsOwn(cfg, db, u);
      StatusIsKnown(cfg, db, u);
      Api.GatewayUpsertIsAccepted(cfg, db, u, port);
      GatewayRowSuits(db, Api.GatewayRoute(u, p, GatewayHostname(cfg, u).value));
    }
  }

  lemma PluginSlotIsOwn(cfg: MaybeConfig, db: Db, username: string, plugin: string, hint: string)
    requires Api.Sound(cfg, db) && username in db.users && PluginRouteId(username, plugin, hint) in db.routes
    ensures db.routes[PluginRouteId(username, plugin, hint)].username == username
  {
    hide Integrity, WellNamed, ValidUsername, PluginRouteId;
    Api.UserFacts(cfg, db, username);
    PluginIdStarts(username, plugin, hint);
    assert HasPrefix(PluginRouteId(username, plugin, hint), PluginPrefix(username));
    PrefixCheckMeansOwnership(cfg, db, username, PluginRouteId(username, plugin, hint));
  }

  lemma PluginIdIsNoGatewayId(u: string, plugin: string, hint: string, v: string)
    ensures PluginRouteId(u, plugin, hint) != GatewayRouteId(v)
  {
    assert PluginRouteId(u, plugin, hint)[0] == 'p' && GatewayRouteId(v)[0] == 'g';
  }

  /** An enabled row that is not the gateway row suits every user but a paused one. */
  lemma EnabledRowSuits(db: Db, row: Route)
    requires Settled(db) && row.username in db.users && row.enabled && row.id != GatewayRouteId(row.username)
    requires row.id in db.routes ==> db.routes[row.id].username == row.username
    ensures Settled(WithRoute(db, row)) <==> db.users[row.username].status != Paused
  {
    var next := WithRoute(db, row);
    assert UserSettled(db, row.username);
    hide Settled, OthersAlike, GatewayRouteId;
    PutAlike(db, row);
    OneUserDecides(db, next, row.username);
    assert next.routes[row.id] == row;
  }

  /** What the service answers to a plugin upsert, in terms of the arguments and the table. */
  lemma PluginAnswer(cfg: MaybeConfig, db: Db, u: string, plugin: string, hint: string, port: int)
    requires Api.Sound(cfg, db)
    ensures Api.Change(cfg, db, Api.UpsertPlugin(u, plugin, hint, port)).err.Some?
      <==> Refused(cfg, db, u, plugin, hint, port)
  {
    if u in db.users && Slug(plugin) != "" && Slug(hint) != "" && port > 0 && HasDomain(cfg) {
      Api.PluginUpsertRefusal(cfg, db, u, plugin, hint, port);
    }
    hide Api.Sound, Slug, HostnameTaken, PluginRouteId, Api.HintTaken;
  }

  lemma PluginSuits(cfg: MaybeConfig, db: Db, u: string, plugin: string, hint: string, port: int)
    requires Api.Sound(cfg, db) && Settled(db)
    ensures var op := Api.UpsertPlugin(u, plugin, hint, port);
      Settled(Api.Change(cfg, db, op).db) <==> Suits(cfg, db, op)
  {
    hide Api.Sound, Settled, GatewayRouteId, PluginRouteId, Slug, HostnameTaken, Refused;
    PluginAnswer(cfg, db, u, plugin, hint, port);
    if !Refused(cfg, db, u, plugin, hint, port) {
      var row := Api.PluginRoute(u, Slug(plugin), Slug(hint), port, RouteHostname(cfg, Slug(hint), u).value);
      if row.id in db.routes { PluginSlotIsOwn(cfg, db, u, Slug(plugin), Slug(hint)); }
      PluginIdIsNoGatewayId(u, Slug(plugin), Slug(hint), u);
      EnabledRowSuits(db, row);
    }
  }

  lemma GatewayDeletionSuits(cfg: MaybeConfig, db: Db, u: string)
    requires Api.Sound(cfg, db) && Settled(db)
    ensures Settled(Api.Change(cfg, db, Api.DeleteGateway(u)).db) <==> !IsActive(db, u)
  {
    var id, next := GatewayRouteId(u), DeleteRoute(db, GatewayRouteId(u)).db;
    GatewaySlotIsOwn(cfg, db, u);
    if u in db.users { assert UserSettled(db, u); StatusIsKnown(cfg, db, u); }
    hide Api.Sound, Settled, OthersAlike, GatewayRouteId;
    CutAlike(db, id, u);
    OneUserDecides(db, next, u);
  }

  /** Removing a row that is nobody's gateway row unsettles nobody. */
  lemma CutKeepsSettled(db: Db, id: string)
    requires Settled(db) && id in db.routes && id != GatewayRouteId(db.routes[id].username)
    ensures Settled(DeleteRoute(db, id).db)
  {
    var owner := db.routes[id].username;
    if owner in db.users { assert UserSettled(db, owner); }
    hide Settled, OthersAlike, GatewayRouteId;
    CutAlike(db, id, owner);
    OneUserDecides(db, DeleteRoute(db, id).db, owner);
  }

  lemma PrefixIsNoGateway(id: string, u: string, v: string)
    requires HasPrefix(id, PluginPrefix(u))
    ensures id != GatewayRouteId(v)
  {
    assert id[0] == PluginPrefix(u)[0] == 'p' && GatewayRouteId(v)[0] == 'g';
  }

  lemma PluginDeletionSuits(cfg: MaybeConfig, db: Db, u: string, id: string)
    requires Settled(db)
    ensures Settled(Api.Change(cfg, db, Api.DeletePlugin(u, id)).db)
  {
    hide Settled, PluginPrefix, GatewayRouteId, HasPrefix;
    if HasPrefix(id, PluginPrefix(u)) && id in db.routes {
      PrefixIsNoGateway(id, u, db.routes[id].username);
      CutKeepsSettled(db, id);
    }
  }

  /** Switching the user's routes on or off changes only the flag, of all of them. */
  lemma Switched(db: Db, username: string, on: bool)
    ensures var next := SetRoutesEnabled(db, username, on).db;
      && next.users == db.users
      && (Silent(next, username) <==> !on || !HasRoutes(db, username))
  {
    var next := SetRoutesEnabled(db, username, on).db;
    if HasRoutes(db, username) {
      var id :| id in db.routes && db.routes[id].username == username;
      assert next.routes[id].enabled == on && next.routes[id].username == username;
    }
  }

  lemma SwitchedGateway(db: Db, username: string, on: bool)
    requires username in db.users && Reachable(db, username)
    ensures Reachable(SetRoutesEnabled(db, username, on).db, username) <==> on
  {
    hide GatewayRouteId;
  }

  lemma EnabledChange(cfg: MaybeConfig, db: Db, u: string, on: bool)
    requires Api.Sound(cfg, db) && Settled(db) && u in db.users
    ensures var next := SetRoutesEnabled(db, u, on).db;
      Settled(next) <==> if on then IsActive(db, u) || !HasRoutes(db, u) else IsPaused(db, u)
  {
    assert UserSettled(db, u);
    hide Api.Sound, Settled, OthersAlike, Silent, Reachable, SetRoutesEnabled, HasRoutes;
    var next := SetRoutesEnabled(db, u, on).db;
    StatusIsKnown(cfg, db, u);
    SwitchedAlike(db, u, on);
    OneUserDecides(db, next, u);
    Switched(db, u, on);
    if IsActive(db, u) {
      SwitchedGateway(db, u, on);
      ReachableHasRoutes(db, u);
    }
  }

  lemma ReachableHasRoutes(db: Db, username: string)
    requires username in db.users && Reachable(db, username)
    ensures HasRoutes(db, username)
  {
    hide GatewayRouteId;
  }

  lemma SwitchedAlike(db: Db, username: string, on: bool)
    ensures OthersAlike(db, SetRoutesEnabled(db, username, on).db, username)
  {}

  /** From settled tables, a change of the route service leaves everybody settled exactly if it fits
      the status of its user. */
  lemma ChangeSettlesExactly(cfg: MaybeConfig, db: Db, op: Api.Op)
    requires Api.Sound(cfg, db) && Settled(db)
    ensures Settled(Api.Change(cfg, db, op).db) <==> Suits(cfg, db, op)
  {
    hide Api.Sound, Settled, IsActive, IsPaused, HasRoutes, Refused, GatewayRouteId, PluginRouteId, Slug;
    match op
    case UpsertGateway(u, port) => GatewaySuits(cfg, db, u, port);
    case UpsertPlugin(u, plugin, hint, port) => PluginSuits(cfg, db, u, plugin, hint, port);
    case DeleteGateway(u) => GatewayDeletionSuits(cfg, db, u);
    case DeletePlugin(u, id) => PluginDeletionSuits(cfg, db, u, id);
    case SetEnabled(u, on) => if u in db.users { EnabledChange(cfg, db, u, on); }
    case Reload =>
  }
}
