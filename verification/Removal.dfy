/** Removing a user through the route service: what the tunnel answers for afterwards. */
module Removal {
  import opened Text
  import opened State
  import opened Identity
  import opened Users
  import opened Lifecycle
  import opened WatcherService
  import Api
  import Histories
  import Ingress
  import Tunnel

  /** The tables at the moment the publisher is asked to drop the routes. */
  function BeforeDrop(m: Setup, h: Host, username: string, e: Env): Db
    requires username in h.vault.db.users
  {
    BackUp(m, PausedFirst(m, h, username, e).host, username, e.backup).host.vault.db
  }

  /** A completed removal through the service deletes the gateway route there and the user, with the
      routes left, in the store. */
  lemma RemovedTables(m: Setup, h: Host, raw: string, e: Env)
    requires m.publisher == Client && RemoveOutcome(m, h, raw, e).err.None?
    ensures TrimSpace(raw) in h.vault.db.users
    ensures var username := TrimSpace(raw);
      var dropped := Api.Change(m.cfg, BeforeDrop(m, h, username, e), Api.DeleteGateway(username)).db;
      && PausedFirst(m, h, username, e).err.None?
      && RemoveOutcome(m, h, raw, e).host.vault.db == DeleteUser(dropped, username).db
  {
    hide TrimSpace, PausedFirst, BackUp, DeleteUser, DeleteRoute, FirstFailing, CommandTrace;
    Histories.RemovalInStages(m, h, raw, e);
  }

  /** A plugin route that a paused user still has open. */
  predicate LeftOpen(db: Db, username: string, id: string) {
    && username in db.users && db.users[username].status == Paused
    && id in db.routes && IsOpen(db.routes[id], username)
  }

  predicate IsOpen(r: Route, username: string) { r.username == username && r.kind == Plugin && r.enabled }

  /** Up to the drop, only an active user's routes are touched: they are disabled. */
  lemma RowBeforeDrop(m: Setup, h: Host, username: string, e: Env, id: string)
    requires Api.Sound(m.cfg, h.vault.db) && username in h.vault.db.users
    requires PausedFirst(m, h, username, e).err.None?
    requires id in h.vault.db.routes && h.vault.db.routes[id].username == username
    ensures var before := BeforeDrop(m, h, username, e);
      && id in before.routes
      && before.routes[id] == h.vault.db.routes[id].(enabled :=
           h.vault.db.routes[id].enabled && h.vault.db.users[username].status == Paused)
  {
    hide Api.Sound, BackUp, DeactivateOutcome, OthersAlike, OneSettled, FirstFailing;
    StatusIsKnown(m.cfg, h.vault.db, username);
    PausedFirstKeepsTables(m, h, username, e);
    DeactivatedTables(m, h, username, e);
    BackUpKeepsTables(m, PausedFirst(m, h, username, e).host, username, e.backup);
  }

  lemma BeforeDropIsSound(m: Setup, h: Host, username: string, e: Env)
    requires Api.Sound(m.cfg, h.vault.db) && username in h.vault.db.users
    requires PausedFirst(m, h, username, e).err.None?
    ensures Api.Sound(m.cfg, BeforeDrop(m, h, username, e)) && username in BeforeDrop(m, h, username, e).users
  {
    hide Api.Sound, BackUp, PausedFirst, OthersAlike, OneSettled;
    PausedFirstKeepsTables(m, h, username, e);
    BackUpKeepsTables(m, PausedFirst(m, h, username, e).host, username, e.backup);
  }

  /** After the gateway route is deleted and the table published, the tunnel answers for the hostname of
      a row of the user exactly if it is another, enabled one. */
  lemma DroppedAnswers(sv: Api.Service, before: Db, after: Api.System, username: string, id: string)
    requires sv.publisher.Some? && Api.Published(sv, after) && Api.Sound(sv.cfg, before) && username in before.users
    requires after.db == DeleteRoute(before, GatewayRouteId(username)).db
    requires id in before.routes && before.routes[id].username == username
    ensures Answer(after, before.routes[id].hostname)
      == if IsOpen(before.routes[id], username) then Some(before.routes[id].localPort) else None
  {
    hide ValidUsername, WellNamed, Answer, GatewayRouteId, Api.Published;
    GatewayIdIsGateway(sv.cfg, before, username, id);
    assert UniqueHostnames(before.routes) && UniqueHostnames(after.db.routes);
    if id == GatewayRouteId(username) {
      UnusedHostname(sv, after, before.routes[id].hostname);
    } else {
      RowAnswers(sv, after, id);
    }
  }

  lemma UnusedHostname(sv: Api.Service, sys: Api.System, hostname: string)
    requires sv.publisher.Some? && Api.Published(sv, sys)
    requires forall id :: id in sys.db.routes ==> sys.db.routes[id].hostname != hostname
    ensures Answer(sys, hostname) == None
  {
    assert Ingress.Serves(sys.db.routes, hostname, Answer(sys, hostname));
    hide Ingress.Lookup, Ingress.ParseConfig;
  }

  /** The user's rows are the gateway row and plugin rows under other IDs. */
  lemma GatewayIdIsGateway(cfg: MaybeConfig, db: Db, username: string, id: string)
    requires Api.Sound(cfg, db) && id in db.routes && db.routes[id].username == username
    ensures id == GatewayRouteId(username) <==> db.routes[id].kind == Gateway
  {
    RowFacts(cfg, db, id);
    hide Integrity, WellNamed, ValidUsername, DecodeRouteId;
    if db.routes[id].kind == Plugin { assert id[0] == 'p' && GatewayRouteId(username)[0] == 'g'; }
  }

  lemma PublishedParses(sv: Api.Service, sys: Api.System)
    requires sv.publisher.Some? && Api.Published(sv, sys)
    ensures Ingress.ParseConfig(sys.host.loaded).Some?
  {}

  lemma AnswerIgnoresTables(a: Api.System, b: Api.System, hostname: string)
    requires a.host == b.host && Ingress.ParseConfig(a.host.loaded).Some?
    ensures Answer(a, hostname) == Answer(b, hostname)
  {}

  /** None of the hostnames the user had is answered for. */
  ghost predicate Unanswered(sys: Api.System, before: Db, username: string)
    requires Ingress.ParseConfig(sys.host.loaded).Some?
  {
    forall id :: id in before.routes && before.routes[id].username == username ==>
      Answer(sys, before.routes[id].hostname).None?
  }

  /** After a completed removal through the route service, its publication included, the tunnel answers
      for a hostname of the user exactly if it was the user's plugin route, still enabled while the user
      was paused; deleting the user's row publishes nothing. So no hostname of the user is answered for
      exactly if no plugin route was left open. */
  lemma RemovedUserAnswers(m: Setup, h: Host, raw: string, e: Env, sv: Api.Service, tunnel: Tunnel.Host, env: Api.Env)
    requires Api.Sound(m.cfg, h.vault.db) && m.publisher == Client && RemoveOutcome(m, h, raw, e).err.None?
    requires sv.cfg == m.cfg && sv.publisher.Some? && sv.publisher.value.cfg == sv.cfg
    requires Api.OneLineSettings(sv.publisher.value) && env.backupPath != sv.publisher.value.path
    requires TrimSpace(raw) in h.vault.db.users
    requires var before := Api.System(BeforeDrop(m, h, TrimSpace(raw), e), tunnel);
      Api.Step(sv, before, Api.DeleteGateway(TrimSpace(raw)), env).err.None?
    ensures var username, db := TrimSpace(raw), h.vault.db;
      var before := Api.System(BeforeDrop(m, h, username, e), tunnel);
      var dropped := Api.Step(sv, before, Api.DeleteGateway(username), env).sys;
      var after := Api.System(RemoveOutcome(m, h, raw, e).host.vault.db, dropped.host);
      && after.db == DeleteUser(dropped.db, username).db && Ingress.ParseConfig(after.host.loaded).Some?
      && (forall id :: id in db.routes && db.routes[id].username == username ==>
            Answer(after, db.routes[id].hostname)
              == if LeftOpen(db, username, id) then Some(db.routes[id].localPort) else None)
      && (Unanswered(after, db, username) <==> forall id :: !LeftOpen(db, username, id))
  {
    hide Api.Sound, TrimSpace, RemoveOutcome, PausedFirst, BeforeDrop, DeleteUser, Answer, Api.OneLineSettings,
         Api.Published, Api.Republish, DeleteRoute, Ingress.ParseConfig;
    var username, db := TrimSpace(raw), h.vault.db;
    var before := Api.System(BeforeDrop(m, h, username, e), tunnel);
    var dropped := Api.Step(sv, before, Api.DeleteGateway(username), env).sys;
    RemovedTables(m, h, raw, e);
    BeforeDropIsSound(m, h, username, e);
    Api.SuccessMeansPublished(sv, before, Api.DeleteGateway(username), env);
    PublishedParses(sv, dropped);
    var after := Api.System(RemoveOutcome(m, h, raw, e).host.vault.db, dropped.host);
    forall id | id in db.routes && db.routes[id].username == username
      ensures Answer(after, db.routes[id].hostname)
        == if LeftOpen(db, username, id) then Some(db.routes[id].localPort) else None
    {
      RowBeforeDrop(m, h, username, e, id);
      DroppedAnswers(sv, before.db, dropped, username, id);
      AnswerIgnoresTables(after, dropped, db.routes[id].hostname);
    }
  }
}
