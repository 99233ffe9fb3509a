/** What every run of user operations keeps. */
module Lifecycle {
  import opened Text
  import opened State
  import opened Identity
  import opened Users
  import Api
  import Backup
  import Ports

  // ----- Pausing and removing, as seen by the tables -----

  function Closed(db: Db, username: string): Db { SetRoutesEnabled(db, username, false).db }

  function PausedTables(db: Db, username: string): Db
    requires username in db.users
  {
    WithUser(Closed(db, username), PausedRow(db.users[username]))
  }

  /** Pausing gets as far as the publisher. */
  predicate Stopped(db: Db, username: string, e: Env) {
    && username in db.users && db.users[username].status != Paused
    && FirstFailing([StopServices, DisableLinger], e.pausing).None?
  }

  lemma PausedRowFits(db: Db, username: string)
    requires Integrity(db) && username in db.users
    ensures PutUser(Closed(db, username), PausedRow(db.users[username])) == Outcome(PausedTables(db, username), None)
  {
    assert db.users[username].username == username;
  }

  lemma DeactivatedTables(m: Setup, h: Host, username: string, e: Env)
    requires Api.Sound(m.cfg, h.vault.db)
    ensures var db, d := h.vault.db, DeactivateOutcome(m, h, username, e);
      && d.host.vault.files == h.vault.files
      && if !Stopped(db, username, e) then d.host.vault == h.vault
         else match e.disabling
           case Works => d.err.None? && d.host.vault.db == PausedTables(db, username)
           case FailsBefore => d.err.Some? && d.host.vault == h.vault
           case FailsAfter => d.err.Some? && d.host.vault.db == Closed(db, username)
    ensures DeactivateOutcome(m, h, username, e).err.None? ==>
      username in h.vault.db.users && (Stopped(h.vault.db, username, e) || h.vault.db.users[username].status == Paused)
  {
    var db := h.vault.db;
    if Stopped(db, username, e) {
      PausedRowFits(db, username);
      assert db.users[username].username == username;
    }
    hide FirstFailing, CommandTrace, Integrity, PutUser, SetRoutesEnabled;
  }

  // ----- The lifecycle invariant -----

  predicate Silent(db: Db, username: string) {
    forall id :: id in db.routes && db.routes[id].username == username ==> !db.routes[id].enabled
  }

  predicate Reachable(db: Db, username: string)
    requires username in db.users
  {
    var id := GatewayRouteId(username);
    && id in db.routes && db.routes[id].username == username && db.routes[id].kind == Gateway
    && db.routes[id].enabled && db.routes[id].localPort == db.users[username].port
  }

  predicate UserSettled(db: Db, username: string)
    requires username in db.users
  {
    match db.users[username].status
    case Paused => Silent(db, username)
    case Active => Reachable(db, username)
    case Unset => false
  }

  /** A paused user has no enabled route; an active user has an enabled gateway route with the
      user's port. */
  predicate Settled(db: Db) {
    forall u :: u in db.users ==> UserSettled(db, u)
  }

  /** Nothing is wrong with this user, who may be gone. */
  predicate OneSettled(db: Db, username: string) {
    username in db.users ==> UserSettled(db, username)
  }

  /** The tables differ at most in one user and that user's routes. */
  ghost predicate OthersAlike(a: Db, b: Db, username: string) {
    && (forall v :: v != username ==> (v in a.users <==> v in b.users))
    && (forall v :: v != username && v in a.users && v in b.users ==> a.users[v] == b.users[v])
    && (forall id :: id in b.routes && b.routes[id].username != username ==>
          id in a.routes && a.routes[id] == b.routes[id])
    && (forall id :: id in a.routes && a.routes[id].username != username ==>
          id in b.routes && a.routes[id] == b.routes[id])
  }

  lemma OthersAlikeSelf(db: Db, username: string)
    ensures OthersAlike(db, db, username)
  {}

  lemma OthersAlikeTwice(a: Db, b: Db, c: Db, username: string)
    requires OthersAlike(a, b, username) && OthersAlike(b, c, username)
    ensures OthersAlike(a, c, username)
  {}

  /** A change to one user settles and unsettles nobody else. */
  lemma OthersAsSettled(a: Db, b: Db, username: string, v: string)
    requires OthersAlike(a, b, username) && v != username
    ensures OneSettled(a, v) <==> OneSettled(b, v)
  {
    hide GatewayRouteId;
    if v in a.users {
      assert a.users[v] == b.users[v];
      assert Silent(a, v) <==> Silent(b, v);
      assert Reachable(a, v) <==> Reachable(b, v);
    }
  }

  /** So after a change to one user, that user decides whether everybody is settled. */
  lemma OneUserDecides(a: Db, b: Db, username: string)
    requires Settled(a) && OthersAlike(a, b, username)
    ensures Settled(b) <==> OneSettled(b, username)
  {
    hide UserSettled;
    forall v | v in b.users && v != username ensures UserSettled(b, v) { OthersAsSettled(a, b, username, v); }
  }

  // ----- Each change of the tables -----

  lemma SavedAlike(db: Db, u: User)
    ensures OthersAlike(db, WithUser(db, u), u.username)
  {}

  lemma PutAlike(db: Db, r: Route)
    requires r.id in db.routes ==> db.routes[r.id].username == r.username
    ensures OthersAlike(db, WithRoute(db, r), r.username)
  {}

  lemma ClosedAlike(db: Db, username: string)
    ensures OthersAlike(db, Closed(db, username), username)
  {}

  lemma CutAlike(db: Db, id: string, username: string)
    requires id in db.routes ==> db.routes[id].username == username
    ensures OthersAlike(db, DeleteRoute(db, id).db, username)
    ensures OthersAlike(db, DeleteRoutesByUser(db, username).db, username)
  {}

  lemma DeletedAlike(db: Db, username: string)
    ensures OthersAlike(db, DeleteUser(db, username).db, username)
  {}

  lemma GatewaySlotIsOwn(cfg: MaybeConfig, db: Db, username: string)
    requires Api.Sound(cfg, db)
    ensures GatewayRouteId(username) in db.routes ==> db.routes[GatewayRouteId(username)].username == username
  {
    hide Api.Sound, GatewayRouteId;
    if GatewayRouteId(username) in db.routes { GatewayIdIsOwn(cfg, db, username); }
  }

  lemma StatusIsKnown(cfg: MaybeConfig, db: Db, username: string)
    requires Api.Sound(cfg, db) && username in db.users
    ensures db.users[username].status == Active || db.users[username].status == Paused
    ensures db.users[username].username == username
  {}

  lemma OpenedChange(cfg: MaybeConfig, db: Db, u: User)
    requires Api.Sound(cfg, db) && GatewayHostname(cfg, u.username).Some?
    ensures OthersAlike(db, Opened(cfg, db, u), u.username)
  {
    hide OthersAlike, Api.Sound, GatewayHostname, GatewayRouteId, WithUser;
    GatewaySlotIsOwn(cfg, db, u.username);
    SavedAlike(db, u);
    SavingKeepsRoutes(db, u);
    PutAlike(WithUser(db, u), GatewayRow(cfg, u));
    OthersAlikeTwice(db, WithUser(db, u), Opened(cfg, db, u), u.username);
  }

  lemma SavingKeepsRoutes(db: Db, u: User)
    ensures WithUser(db, u).routes == db.routes
  {}

  lemma OpenedSettles(cfg: MaybeConfig, db: Db, u: User)
    requires GatewayHostname(cfg, u.username).Some? && u.status == Active
    ensures OneSettled(Opened(cfg, db, u), u.username)
  {
    hide GatewayHostname, GatewayRouteId;
  }

  /** What a committed but failed opening leaves behind after the undo: settled exactly for users
      that were not paused. */
  lemma HalfOpenedSettles(cfg: MaybeConfig, db: Db, u: User)
    requires Api.Sound(cfg, db) && GatewayHostname(cfg, u.username).Some?
    requires u.username in db.users && u.port == db.users[u.username].port
    ensures var next := WithRoute(db, GatewayRow(cfg, u));
      && OthersAlike(db, next, u.username)
      && (OneSettled(next, u.username) <==> db.users[u.username].status != Paused)
  {
    GatewaySlotIsOwn(cfg, db, u.username);
    StatusIsKnown(cfg, db, u.username);
    hide OthersAlike, Api.Sound, GatewayHostname, GatewayRouteId;
    PutAlike(db, GatewayRow(cfg, u));
    var next := WithRoute(db, GatewayRow(cfg, u));
    assert next.routes[GatewayRow(cfg, u).id] == GatewayRow(cfg, u);
  }

  lemma ClosedKeepsUsers(db: Db, username: string)
    ensures Closed(db, username).users == db.users && Closed(db, username).backups == db.backups
    ensures Silent(Closed(db, username), username)
  {}

  lemma ClosedSettles(cfg: MaybeConfig, db: Db, username: string)
    requires Api.Sound(cfg, db) && username in db.users
    ensures OneSettled(Closed(db, username), username) <==> db.users[username].status == Paused
    ensures OneSettled(PausedTables(db, username), username)
  {
    StatusIsKnown(cfg, db, username);
    ClosedKeepsUsers(db, username);
    hide Api.Sound, GatewayRouteId, Closed;
  }

  /** Same users with the same ports, and the same backups. */
  predicate PortsAlike(a: Db, b: Db) {
    && b.users.Keys == a.users.Keys && b.backups == a.backups
    && forall u :: u in b.users ==> u in a.users && b.users[u].port == a.users[u].port
  }

  /** Users only leave, and those who stay keep their ports. */
  predicate PortsKept(a: Db, b: Db) {
    forall u :: u in b.users ==> u in a.users && b.users[u].port == a.users[u].port
  }

  lemma PausedRowChange(db: Db, u: User)
    requires u.username in db.users && u == db.users[u.username]
    ensures PortsAlike(db, WithUser(db, PausedRow(u))) && OthersAlike(db, WithUser(db, PausedRow(u)), u.username)
  {}

  lemma ClosedChange(cfg: MaybeConfig, db: Db, username: string)
    requires Api.Sound(cfg, db) && username in db.users
    ensures var closed, paused := Closed(db, username), PausedTables(db, username);
      && OthersAlike(db, closed, username) && OthersAlike(db, paused, username)
      && PortsAlike(db, closed) && PortsAlike(db, paused)
      && username in paused.users && paused.users[username].status == Paused
  {
    StatusIsKnown(cfg, db, username);
    hide Api.Sound, OthersAlike, Closed, WithUser;
    var closed, u := Closed(db, username), db.users[username];
    ClosedAlike(db, username);
    ClosedKeepsUsers(db, username);
    PausedRowChange(closed, u);
    PausedStatus(closed, u);
    OthersAlikeTwice(db, closed, WithUser(closed, PausedRow(u)), username);
  }

  lemma PausedStatus(db: Db, u: User)
    ensures var next := WithUser(db, PausedRow(u)); u.username in next.users && next.users[u.username].status == Paused
  {}

  // ----- Sound tables -----

  lemma DroppedIsSound(p: Publisher, cfg: MaybeConfig, db: Db, username: string, f: CallFault)
    requires Api.Sound(cfg, db)
    ensures Api.Sound(cfg, DeleteUserRoutes(p, db, username, f).db)
  {
    if p.Recorder? { RoutesGoneIsSound(cfg, db, username); }
    else { Api.DeletionKeepsSound(cfg, db, GatewayRouteId(username)); }
  }

  lemma RoutesGoneIsSound(cfg: MaybeConfig, db: Db, username: string)
    requires Api.Sound(cfg, db)
    ensures Api.Sound(cfg, DeleteRoutesByUser(db, username).db)
  {
    hide Integrity, WellNamedRow, ValidUsername;
    StatementKeepsIntegrity(db, SDeleteRoutesByUser(username));
  }

  lemma UserGoneIsSound(cfg: MaybeConfig, db: Db, username: string)
    requires Api.Sound(cfg, db)
    ensures Api.Sound(cfg, DeleteUser(db, username).db)
  {
    hide Integrity, WellNamedRow, ValidUsername;
    StatementKeepsIntegrity(db, SDeleteUser(username));
  }

  lemma PausedIsSound(cfg: MaybeConfig, db: Db, username: string)
    requires Api.Sound(cfg, db) && username in db.users
    ensures Api.Sound(cfg, Closed(db, username)) && Api.Sound(cfg, PausedTables(db, username))
  {
    Api.EnablingKeepsSound(cfg, db, username, false);
    PausedRowFits(db, username);
    assert db.users[username].username == username;
    hide Integrity, WellNamedRow, ValidUsername, PutUser, WithUser, SetRoutesEnabled;
    StatementKeepsIntegrity(Closed(db, username), SPutUser(PausedRow(db.users[username])));
    SavingKeepsNames(cfg, Closed(db, username), PausedRow(db.users[username]));
  }

  lemma SavingKeepsNames(cfg: MaybeConfig, db: Db, u: User)
    requires WellNamed(cfg, db) && u.username in db.users
    ensures WellNamed(cfg, WithUser(db, u))
  {
    hide WellNamedRow, ValidUsername;
  }

  lemma BackupsIgnored(cfg: MaybeConfig, db: Db, b: State.Backup)
    requires Api.Sound(cfg, db)
    ensures Api.Sound(cfg, PutBackup(db, b).db)
  {
    hide Integrity, WellNamedRow, ValidUsername;
    StatementKeepsIntegrity(db, SPutBackup(b));
  }

  // ----- What each operation does to the tables -----

  lemma ReusedPort(cfg: MaybeConfig, db: Db, username: string, e: Env)
    requires NoZeroPort(db) && username in db.users && Planned(cfg, db, username, e).Ok?
    ensures Planned(cfg, db, username, e).value == db.users[username].port
  {}

  /** The gateway row of a known user is never refused. */
  lemma SlotIsFree(cfg: MaybeConfig, db: Db, u: User)
    requires Api.Sound(cfg, db) && u.username in db.users && HasDomain(cfg) && u.port > 0
    ensures PutRoute(db, GatewayRow(cfg, u)) == Outcome(WithRoute(db, GatewayRow(cfg, u)), None)
    ensures Api.Sound(cfg, WithRoute(db, GatewayRow(cfg, u)))
  {
    hide Api.Sound, HostnameTaken;
    Api.GatewayUpsertIsAccepted(cfg, db, u.username, u.port);
    Api.GatewayRowIsWellNamed(cfg, u.username, u.port);
    Api.PutKeepsSound(cfg, db, GatewayRow(cfg, u));
  }

  lemma OpenedUsers(cfg: MaybeConfig, db: Db, u: User)
    requires GatewayHostname(cfg, u.username).Some?
    ensures Opened(cfg, db, u).users == db.users[u.username := Stored(u)]
    ensures u.username !in db.users ==> |Opened(cfg, db, u).users| == |db.users| + 1
  {
    var users := db.users[u.username := Stored(u)];
    assert users.Keys == db.users.Keys + {u.username};
    assert |users| == |users.Keys| && |db.users| == |db.users.Keys|;
  }

  /** The tables after adding: unchanged, opened, or, after a publisher that committed and then
      failed for a known user, with that user's gateway row. */
  lemma AddedOneOfThree(m: Setup, h: Host, raw: string, e: Env)
    requires Api.Sound(m.cfg, h.vault.db) && NoZeroPort(h.vault.db)
    ensures var db, username, d := h.vault.db, TrimSpace(raw), AddOutcome(m, h, raw, e);
      && d.host.vault.files == h.vault.files && d.host.vault.db.backups == db.backups
      && if !Provisioned(m, db, username, e) || e.enabling == FailsBefore
         || (e.enabling == FailsAfter && username !in db.users)
         then d.err.Some? && d.host.vault.db == db
         else
           var row := NewRow(m.cfg, db, username, Planned(m.cfg, db, username, e).value, e);
           && row.port > 0 && !PortTaken(db, row) && ValidUsername(username) && HasDomain(m.cfg)
           && (d.err.None? <==> e.enabling == Works)
           && d.host.vault.db
             == if e.enabling == Works then Opened(m.cfg, db, row) else WithRoute(db, GatewayRow(m.cfg, row))
  {
    var db, username := h.vault.db, TrimSpace(raw);
    AddedTables(m, h, raw, e);
    hide TrimSpace, AddOutcome, Provisioned;
    if Provisioned(m, db, username, e) {
      var row := NewRow(m.cfg, db, username, Planned(m.cfg, db, username, e).value, e);
      UndoRestores(m.cfg, db, row);
      if username in db.users { RowComesBack(m.cfg, db, row); }
      OpenedUsers(m.cfg, db, row);
      hide Api.Sound, Planned, Undone, GatewayRow, NoZeroPort;
    }
  }

  /** Every user of the first table is in the second with the same port; a new one has the port. */
  predicate Joined(a: Db, b: Db, username: string, port: int) {
    && (forall v :: v in a.users ==> v in b.users && b.users[v].port == a.users[v].port)
    && (forall v :: v in b.users && v !in a.users ==>
          v == username && b.users[v].port == port && |b.users| == |a.users| + 1)
  }

  lemma OpenedJoins(cfg: MaybeConfig, db: Db, row: User)
    requires GatewayHostname(cfg, row.username).Some?
    requires row.username in db.users ==> db.users[row.username].port == row.port
    ensures Joined(db, Opened(cfg, db, row), row.username, row.port)
  {
    OpenedUsers(cfg, db, row);
    hide Opened;
  }

  lemma OpeningKeepsTables(cfg: MaybeConfig, db: Db, row: User)
    requires Api.Sound(cfg, db) && ValidUsername(row.username) && HasDomain(cfg) && !PortTaken(db, row) && row.port > 0
    requires row.username in db.users ==> db.users[row.username].port == row.port
    ensures var next := Opened(cfg, db, row);
      Api.Sound(cfg, next) && OthersAlike(db, next, row.username) && Joined(db, next, row.username, row.port)
    ensures row.username in db.users ==>
      Api.Sound(cfg, WithRoute(db, GatewayRow(cfg, row)))
        && OthersAlike(db, WithRoute(db, GatewayRow(cfg, row)), row.username)
  {
    hide Api.Sound, OthersAlike, PortTaken, Opened, ValidUsername, OneSettled, Joined, WithRoute, GatewayRow;
    OpeningIsAccepted(cfg, db, row);
    OpenedChange(cfg, db, row);
    OpenedJoins(cfg, db, row);
    if row.username in db.users {
      SlotIsFree(cfg, db, row);
      HalfOpenedSettles(cfg, db, row);
    }
  }

  /** Adding keeps the tables sound, touches one user, keeps every port and gives a new user the
      chosen one. */
  lemma AddKeepsTables(m: Setup, h: Host, raw: string, e: Env)
    requires Api.Sound(m.cfg, h.vault.db) && NoZeroPort(h.vault.db)
    ensures var db, username, after := h.vault.db, TrimSpace(raw), AddOutcome(m, h, raw, e).host.vault.db;
      && Api.Sound(m.cfg, after) && OthersAlike(db, after, username)
      && (forall v :: v in db.users ==> v in after.users && after.users[v].port == db.users[v].port)
      && (forall v :: v in after.users && v !in db.users ==>
            v == username && ChosenPort(m.cfg, db, v) == Ok(after.users[v].port) && |after.users| == |db.users| + 1)
  {
    hide AddOutcome, TrimSpace, Api.Sound, OthersAlike, PortTaken, Opened, ValidUsername, HasDomain,
         FirstFailing, Provisioning, ChosenPort;
    var db, username := h.vault.db, TrimSpace(raw);
    AddedOneOfThree(m, h, raw, e);
    OthersAlikeSelf(db, username);
    if Provisioned(m, db, username, e) && e.enabling != FailsBefore && (e.enabling == Works || username in db.users) {
      var row := NewRow(m.cfg, db, username, Planned(m.cfg, db, username, e).value, e);
      if username in db.users { ReusedPort(m.cfg, db, username, e); }
      OpeningKeepsTables(m.cfg, db, row);
    }
  }

  /** After adding: settled on success, as before if nothing was committed, and after a half-way
      failure exactly if the user is not paused. */
  lemma AddSettles(m: Setup, h: Host, raw: string, e: Env)
    requires Api.Sound(m.cfg, h.vault.db) && NoZeroPort(h.vault.db)
    ensures var db, username, after := h.vault.db, TrimSpace(raw), AddOutcome(m, h, raw, e).host.vault.db;
      OneSettled(after, username) <==>
        if !Provisioned(m, db, username, e) || e.enabling == FailsBefore then OneSettled(db, username)
        else e.enabling == Works || username !in db.users || db.users[username].status != Paused
  {
    var db, username := h.vault.db, TrimSpace(raw);
    AddedOneOfThree(m, h, raw, e);
    hide AddOutcome, TrimSpace, Api.Sound, Opened, ValidUsername, UserSettled, HasDomain, GatewayHostname, PortTaken;
    if Provisioned(m, db, username, e) {
      var row := NewRow(m.cfg, db, username, Planned(m.cfg, db, username, e).value, e);
      OpenedSettles(m.cfg, db, row);
      if username in db.users {
        ReusedPort(m.cfg, db, username, e);
        HalfOpenedSettles(m.cfg, db, row);
      }
    }
  }

  lemma DeactivateKeepsTables(m: Setup, h: Host, username: string, e: Env)
    requires Api.Sound(m.cfg, h.vault.db)
    ensures var db, d := h.vault.db, DeactivateOutcome(m, h, username, e);
      var after := d.host.vault.db;
      && Api.Sound(m.cfg, after) && OthersAlike(db, after, username) && PortsAlike(db, after)
      && d.host.vault.files == h.vault.files
      && (d.err.None? ==> username in after.users && after.users[username].status == Paused)
      && (OneSettled(after, username) <==>
            if !Stopped(db, username, e) || e.disabling == FailsBefore then OneSettled(db, username)
            else e.disabling == Works)
  {
    hide Api.Sound, OthersAlike, Closed, PausedTables, DeactivateOutcome, FirstFailing, OneSettled;
    var db := h.vault.db;
    DeactivatedTables(m, h, username, e);
    OthersAlikeSelf(db, username);
    if Stopped(db, username, e) {
      ClosedChange(m.cfg, db, username);
      ClosedSettles(m.cfg, db, username);
      PausedIsSound(m.cfg, db, username);
    }
  }

  lemma BackUpKeepsTables(m: Setup, h: Host, username: string, e: Backup.Env)
    requires Api.Sound(m.cfg, h.vault.db)
    ensures var db := BackUp(m, h, username, e).host.vault.db;
      && Api.Sound(m.cfg, db) && db.users == h.vault.db.users && db.routes == h.vault.db.routes
  {
    hide Backup.CreateBackup, Api.Sound;
    Backup.OnlyBackupsChange(m.backups, h.vault, username, e);
    var c := Backup.CreateBackup(m.backups, h.vault, username, e);
    if m.hook && c.result.Ok? { BackupsIgnored(m.cfg, h.vault.db, c.result.value); }
  }

  lemma DroppedByFault(p: Publisher, db: Db, username: string, f: CallFault)
    ensures DeleteUserRoutes(p, db, username, f) == if f == FailsBefore then Called(db, false)
      else Called(DeleteUserRoutes(p, db, username, Works).db, f == Works)
  {}

  lemma DroppedChange(p: Publisher, cfg: MaybeConfig, db: Db, username: string)
    requires Api.Sound(cfg, db)
    ensures var dropped := DeleteUserRoutes(p, db, username, Works).db;
      && OthersAlike(db, dropped, username) && dropped.users == db.users && dropped.backups == db.backups
      && (Silent(db, username) ==> Silent(dropped, username))
  {
    GatewaySlotIsOwn(cfg, db, username);
    hide Api.Sound, GatewayRouteId, OthersAlike;
    CutAlike(db, GatewayRouteId(username), username);
  }

  lemma DestroyKeepsTables(m: Setup, h: Host, username: string, e: Env)
    requires Api.Sound(m.cfg, h.vault.db) && username in h.vault.db.users
    ensures var d, db := Destroy(m, h, username, e), h.vault.db;
      var after := d.host.vault.db;
      && Api.Sound(m.cfg, after) && OthersAlike(db, after, username)
      && d.host.vault.files == h.vault.files && after.backups == db.backups
      && (if d.err.None? then username !in after.users else after.users == db.users)
      && (db.users[username].status == Paused && OneSettled(db, username) ==> OneSettled(after, username))
  {
    hide Api.Sound, OthersAlike, DeleteUserRoutes, CommandTrace, FirstFailing, Silent, Reachable;
    var db := h.vault.db;
    DroppedChange(m.publisher, m.cfg, db, username);
    DroppedIsSound(m.publisher, m.cfg, db, username, Works);
    var dropped := DeleteUserRoutes(m.publisher, db, username, Works).db;
    DeletedAlike(dropped, username);
    UserGoneIsSound(m.cfg, dropped, username);
    DroppedByFault(m.publisher, db, username, e.deleting);
    OthersAlikeTwice(db, dropped, DeleteUser(dropped, username).db, username);
    OthersAlikeSelf(db, username);
  }

  /** The first stage of removal. */
  function PausedFirst(m: Setup, h: Host, username: string, e: Env): Done
    requires username in h.vault.db.users
  {
    if h.vault.db.users[username].status == Active then DeactivateOutcome(m, h, username, e) else Done(h, None)
  }

  lemma PausedFirstKeepsTables(m: Setup, h: Host, username: string, e: Env)
    requires Api.Sound(m.cfg, h.vault.db) && username in h.vault.db.users
    ensures var db, d := h.vault.db, PausedFirst(m, h, username, e);
      var after := d.host.vault.db;
      && Api.Sound(m.cfg, after) && OthersAlike(db, after, username) && PortsAlike(db, after)
      && d.host.vault.files == h.vault.files
      && (d.err.None? ==> username in after.users && after.users[username].status == Paused)
      && (OneSettled(db, username) ==> (OneSettled(after, username) <==> !HalfClosed(db, username, e)))
      && (d.err.None? ==> !HalfClosed(db, username, e))
  {
    hide Api.Sound, OthersAlike, DeactivateOutcome, FirstFailing, OneSettled, Closed, PausedTables;
    var db := h.vault.db;
    StatusIsKnown(m.cfg, db, username);
    DeactivateKeepsTables(m, h, username, e);
    DeactivatedTables(m, h, username, e);
    OthersAlikeSelf(db, username);
  }

  lemma PortsKeptTwice(a: Db, b: Db, c: Db, username: string)
    requires PortsKept(a, b) && OthersAlike(b, c, username) && (c.users == b.users || username !in c.users)
    ensures PortsKept(a, c)
  {}

  /** Removal keeps the tables sound, touches one user and keeps every port; a user it completes
      for is gone; and it leaves a settled user settled unless the pause stops half-way. */
  lemma RemoveKeepsTables(m: Setup, h: Host, raw: string, e: Env)
    requires Api.Sound(m.cfg, h.vault.db)
    ensures var db, username, d := h.vault.db, TrimSpace(raw), RemoveOutcome(m, h, raw, e);
      var after := d.host.vault.db;
      && Api.Sound(m.cfg, after) && OthersAlike(db, after, username) && PortsKept(db, after)
      && (d.err.None? ==> username in db.users && username !in after.users)
      && (OneSettled(db, username) ==> (OneSettled(after, username) <==> !HalfClosed(db, username, e)))
  {
    hide UserSettled, Api.Sound, OthersAlike, TrimSpace, HalfClosed, BackUp, Destroy, DeactivateOutcome;
    var db, username := h.vault.db, TrimSpace(raw);
    OthersAlikeSelf(db, username);
    if username in db.users {
      PausedFirstKeepsTables(m, h, username, e);
      var paused := PausedFirst(m, h, username, e);
      if paused.err.None? {
        BackUpKeepsTables(m, paused.host, username, e.backup);
        var saved := BackUp(m, paused.host, username, e.backup);
        SameTables(paused.host.vault.db, saved.host.vault.db, username);
        OthersAlikeTwice(db, paused.host.vault.db, saved.host.vault.db, username);
        if saved.err.None? {
          DestroyKeepsTables(m, saved.host, username, e);
          var gone := Destroy(m, saved.host, username, e).host.vault.db;
          OthersAlikeTwice(db, saved.host.vault.db, gone, username);
          PortsKeptTwice(db, saved.host.vault.db, gone, username);
        }
      }
    } else {
      NotHalfClosed(db, username, e);
    }
  }

  lemma SameTables(a: Db, b: Db, username: string)
    requires a.users == b.users && a.routes == b.routes
    ensures OthersAlike(a, b, username) && (OneSettled(a, username) <==> OneSettled(b, username))
  {}

  lemma NotHalfClosed(db: Db, username: string, e: Env)
    requires username !in db.users
    ensures !HalfClosed(db, username, e)
  {}

  lemma OwnNameIsTrimmed(cfg: MaybeConfig, db: Db, username: string)
    requires Api.Sound(cfg, db) && username in db.users
    ensures db.users[username].username == username && TrimSpace(username) == username
  {
    ValidUsernameHasNoSeparators(username);
  }

  // ----- Any operation -----

  /** A publisher that commits and then fails would leave the user half open. */
  predicate HalfOpened(m: Setup, db: Db, username: string, e: Env) {
    && Provisioned(m, db, username, e) && e.enabling == FailsAfter
    && username in db.users && db.users[username].status == Paused
  }

  /** A publisher that commits and then fails would leave the user half closed. */
  predicate HalfClosed(db: Db, username: string, e: Env) {
    Stopped(db, username, e) && e.disabling == FailsAfter
  }

  /** The user an operation is about. */
  function Target(op: Op): string {
    match op
    case AddUser(raw) => TrimSpace(raw)
    case ActivateUser(u) => u
    case DeactivateUser(u) => u
    case RemoveUser(raw) => TrimSpace(raw)
  }

  /** The one way an operation can leave its user unsettled. */
  predicate Halfway(m: Setup, db: Db, op: Op, e: Env) {
    if op.AddUser? || op.ActivateUser? then HalfOpened(m, db, Target(op), e) else HalfClosed(db, Target(op), e)
  }

  /** Every operation keeps the tables sound and touches one user, whatever fails and whoever is
      unsettled before. If that user is settled before, the user is settled after exactly unless the
      publisher commits and then fails while opening a paused user or closing an active one. */
  lemma StepKeepsOrder(m: Setup, h: Host, op: Op, e: Env)
    requires Api.Sound(m.cfg, h.vault.db) && NoZeroPort(h.vault.db)
    ensures var db, after := h.vault.db, Step(m, h, op, e).host.vault.db;
      && Api.Sound(m.cfg, after) && OthersAlike(db, after, Target(op))
      && (OneSettled(db, Target(op)) ==> (OneSettled(after, Target(op)) <==> !Halfway(m, db, op, e)))
      && (Settled(db) ==> (Settled(after) <==> !Halfway(m, db, op, e)))
  {
    var db, after := h.vault.db, Step(m, h, op, e).host.vault.db;
    OneStepSettles(m, h, op, e);
    hide Api.Sound, OthersAlike, UserSettled, Step, Halfway;
    if Settled(db) { OneUserDecides(db, after, Target(op)); }
  }

  lemma OneStepSettles(m: Setup, h: Host, op: Op, e: Env)
    requires Api.Sound(m.cfg, h.vault.db) && NoZeroPort(h.vault.db)
    ensures var db, after := h.vault.db, Step(m, h, op, e).host.vault.db;
      && Api.Sound(m.cfg, after) && OthersAlike(db, after, Target(op))
      && (OneSettled(db, Target(op)) ==> (OneSettled(after, Target(op)) <==> !Halfway(m, db, op, e)))
  {
    hide Api.Sound, OthersAlike, OneSettled, Stopped, Provisioned, TrimSpace, AddOutcome, DeactivateOutcome,
         RemoveOutcome;
    match op
    case AddUser(raw) => AddKeepsTables(m, h, raw, e); AddSettles(m, h, raw, e);
    case ActivateUser(u) => ActivateKeepsTables(m, h, u, e);
    case DeactivateUser(u) => DeactivateKeepsTables(m, h, u, e);
    case RemoveUser(raw) => RemoveKeepsTables(m, h, raw, e);
  }

  lemma ActivateKeepsTables(m: Setup, h: Host, username: string, e: Env)
    requires Api.Sound(m.cfg, h.vault.db) && NoZeroPort(h.vault.db)
    ensures var db, after := h.vault.db, ActivateOutcome(m, h, username, e).host.vault.db;
      && Api.Sound(m.cfg, after) && OthersAlike(db, after, username)
      && (OneSettled(db, username) ==> (OneSettled(after, username) <==> !HalfOpened(m, db, username, e)))
  {
    hide Api.Sound, OthersAlike, OneSettled, Provisioned, TrimSpace, AddOutcome;
    var db := h.vault.db;
    OthersAlikeSelf(db, username);
    if username in db.users {
      OwnNameIsTrimmed(m.cfg, db, username);
      AddKeepsTables(m, h, username, e);
      AddSettles(m, h, username, e);
    }
  }

  /** A completed operation settles its user, whatever was wrong before, with one exception: pausing
      a paused user does nothing, so it does not close what a failed opening left open. */
  lemma SuccessSettles(m: Setup, h: Host, op: Op, e: Env)
    requires Api.Sound(m.cfg, h.vault.db) && NoZeroPort(h.vault.db) && Step(m, h, op, e).err.None?
    ensures var db, after := h.vault.db, Step(m, h, op, e).host.vault.db;
      OneSettled(after, Target(op)) <==>
        (op.DeactivateUser? && db.users[Target(op)].status == Paused ==> OneSettled(db, Target(op)))
  {
    hide Api.Sound, OthersAlike, UserSettled, TrimSpace, AddOutcome, DeactivateOutcome, RemoveOutcome;
    match op
    case AddUser(raw) => AddedOneOfThree(m, h, raw, e); AddSettles(m, h, raw, e);
    case ActivateUser(u) =>
      OwnNameIsTrimmed(m.cfg, h.vault.db, u);
      AddedOneOfThree(m, h, u, e);
      AddSettles(m, h, u, e);
    case DeactivateUser(u) =>
      DeactivatedTables(m, h, u, e);
      DeactivateKeepsTables(m, h, u, e);
    case RemoveUser(raw) => RemoveKeepsTables(m, h, raw, e);
  }

  lemma OpeningTwice(cfg: MaybeConfig, db: Db, u: User)
    requires GatewayHostname(cfg, u.username).Some?
    ensures Opened(cfg, Opened(cfg, db, u), u) == Opened(cfg, db, u)
  {
    var once := Opened(cfg, db, u);
    assert once.users[u.username := Stored(u)] == once.users;
    assert once.routes[GatewayRow(cfg, u).id := GatewayRow(cfg, u)] == once.routes;
  }

  lemma PortsStayPositive(a: Db, b: Db, cfg: MaybeConfig)
    requires NoZeroPort(a) && forall v :: v in a.users ==> v in b.users && b.users[v].port == a.users[v].port
    requires forall v :: v in b.users && v !in a.users ==> ChosenPort(cfg, a, v) == Ok(b.users[v].port)
    ensures NoZeroPort(b)
  {
    forall v | v in b.users ensures b.users[v].port > 0 {
      if v !in a.users { ChosenPortIsPositive(cfg, a, v); }
    }
  }

  /** Adding a user again changes nothing once the user is there with its user ID. */
  lemma AddIsIdempotent(m: Setup, h: Host, raw: string, e: Env, again: Env)
    requires Api.Sound(m.cfg, h.vault.db) && NoZeroPort(h.vault.db)
    requires var once := AddOutcome(m, h, raw, e);
      && once.err.None? && AddOutcome(m, once.host, raw, again).err.None?
      && KnownUid(once.host.vault.db, TrimSpace(raw)) != 0
    ensures var once := AddOutcome(m, h, raw, e).host; AddOutcome(m, once, raw, again).host.vault == once.vault
  {
    hide AddOutcome, TrimSpace, Api.Sound, OthersAlike, Opened, PortTaken, HasDomain, FirstFailing,
         Provisioning, Fatal, ValidUsername;
    var db, username, once := h.vault.db, TrimSpace(raw), AddOutcome(m, h, raw, e).host;
    AddedOneOfThree(m, h, raw, e);
    AddKeepsTables(m, h, raw, e);
    PortsStayPositive(db, once.vault.db, m.cfg);
    var row := NewRow(m.cfg, db, username, Planned(m.cfg, db, username, e).value, e);
    OpenedUsers(m.cfg, db, row);
    AddedOneOfThree(m, once, raw, again);
    OpeningTwice(m.cfg, db, row);
  }

  /** Resuming a user opens the gateway only: the user's plugin routes stay as they were. */
  lemma ActivateOpensOnlyTheGateway(m: Setup, h: Host, username: string, e: Env)
    requires Api.Sound(m.cfg, h.vault.db) && NoZeroPort(h.vault.db) && ActivateOutcome(m, h, username, e).err.None?
    ensures var before, after := h.vault.db.routes, ActivateOutcome(m, h, username, e).host.vault.db.routes;
      forall id :: id != GatewayRouteId(username) ==>
        (id in after <==> id in before) && (id in after ==> after[id] == before[id])
  {
    OwnNameIsTrimmed(m.cfg, h.vault.db, username);
    AddedTables(m, h, username, e);
    hide TrimSpace, AddOutcome, Api.Sound, Provisioned, Planned, GatewayRouteId, GatewayHostname;
  }

  // ----- Ports -----

  /** The port is one of the first `n` rungs of the ladder. */
  predicate OnRung(cfg: OverlayConfig, port: int, n: nat) {
    Ports.GoodRange(cfg) && exists k :: 0 <= k < n && Ports.PortAt(cfg, k) == port
  }

  predicate Ladder(cfg: MaybeConfig, db: Db, n: nat) {
    |db.users| <= n && forall u :: u in db.users ==> OnRung(Ports.Settings(cfg), db.users[u].port, n)
  }

  lemma LadderMeansPorts(cfg: MaybeConfig, db: Db, n: nat)
    requires Ladder(cfg, db, n)
    ensures NoZeroPort(db)
  {
    forall u | u in db.users ensures db.users[u].port > 0 {
      assert OnRung(Ports.Settings(cfg), db.users[u].port, n);
      var k :| 0 <= k < n && Ports.PortAt(Ports.Settings(cfg), k) == db.users[u].port;
      RungIsPositive(Ports.Settings(cfg), k);
    }
  }

  /** The windows of 20 ports from each user's port on are disjoint. */
  lemma WindowsAreDisjoint(cfg: MaybeConfig, db: Db, n: nat, a: string, b: string)
    requires Integrity(db) && Ladder(cfg, db, n) && a in db.users && b in db.users && a != b
    ensures db.users[a].port + 20 <= db.users[b].port || db.users[b].port + 20 <= db.users[a].port
  {
    LadderMeansPorts(cfg, db, n);
    var c := Ports.Settings(cfg);
    assert OnRung(c, db.users[a].port, n) && OnRung(c, db.users[b].port, n);
    var i :| 0 <= i < n && Ports.PortAt(c, i) == db.users[a].port;
    var j :| 0 <= j < n && Ports.PortAt(c, j) == db.users[b].port;
    if i < j { Ports.RungsGrow(c, i, j); } else if j < i { Ports.RungsGrow(c, j, i); }
  }

  lemma RungStays(cfg: OverlayConfig, port: int, n: nat, more: nat)
    requires OnRung(cfg, port, n) && n <= more
    ensures OnRung(cfg, port, more)
  {}

  lemma {:induction false} FewUsedPorts(users: map<string, User>)
    ensures |Ports.UsedPorts(users.Values)| <= |users|
    decreases |users|
  {
    if users != map[] {
      assert users.Keys != {};
      var k :| k in users;
      var rest := users - {k};
      assert rest.Keys == users.Keys - {k};
      FewUsedPorts(rest);
      var used, others := Ports.UsedPorts(users.Values), Ports.UsedPorts(rest.Values) + {users[k].port};
      forall p | p in used ensures p in others {
        var u :| u in users.Values && u.port == p;
        var x :| x in users && users[x] == u;
        if x != k { assert rest[x] == u && u in rest.Values; }
      }
      Ports.Smaller(used, others);
    } else {
      assert Ports.UsedPorts(users.Values) == {};
    }
  }

  /** A new user's rung is below the number of users it makes. */
  lemma AllocatedRung(cfg: MaybeConfig, db: Db, username: string, port: int)
    requires username !in db.users && ChosenPort(cfg, db, username) == Ok(port)
    ensures OnRung(Ports.Settings(cfg), port, |db.users| + 1)
  {
    var used := Ports.UsedPorts(db.users.Values);
    Ports.AllocationIsTight(cfg, used);
    FewUsedPorts(db.users);
    var k :| Ports.IsLowestFree(Ports.Settings(cfg), used, k)
      && Ports.Allocated(cfg, used) == Ok(Ports.PortAt(Ports.Settings(cfg), k));
  }

  function Max(a: nat, b: nat): nat { if a < b then b else a }

  lemma KeptLadder(cfg: MaybeConfig, db: Db, after: Db, n: nat)
    requires Ladder(cfg, db, n) && PortsKept(db, after)
    ensures Ladder(cfg, after, Max(n, |after.users|))
  {
    forall u | u in after.users ensures OnRung(Ports.Settings(cfg), after.users[u].port, Max(n, |after.users|)) {
      RungStays(Ports.Settings(cfg), db.users[u].port, n, Max(n, |after.users|));
    }
  }

  /** Users who are there before and after have the same port. */
  predicate SamePorts(a: Db, b: Db) {
    forall u :: u in a.users && u in b.users ==> b.users[u].port == a.users[u].port
  }

  /** No operation moves a user to another port, and all ports stay on rungs below the largest
      number of users so far, whatever fails and whoever is unsettled. */
  lemma StepKeepsLadder(m: Setup, h: Host, op: Op, e: Env, n: nat)
    requires Api.Sound(m.cfg, h.vault.db) && Ladder(m.cfg, h.vault.db, n)
    ensures var db, after := h.vault.db, Step(m, h, op, e).host.vault.db;
      Ladder(m.cfg, after, Max(n, |after.users|)) && SamePorts(db, after)
  {
    hide Api.Sound, TrimSpace, AddOutcome, DeactivateOutcome, RemoveOutcome, OthersAlike, Ladder, OneSettled,
         Stopped, HalfClosed;
    var db := h.vault.db;
    match op
    case AddUser(raw) => AddKeepsLadder(m, h, raw, e, n);
    case ActivateUser(u) =>
      if u in db.users { AddKeepsLadder(m, h, db.users[u].username, e, n); } else { KeptLadder(m.cfg, db, db, n); }
    case DeactivateUser(u) =>
      DeactivateKeepsTables(m, h, u, e);
      KeptLadder(m.cfg, db, DeactivateOutcome(m, h, u, e).host.vault.db, n);
    case RemoveUser(raw) =>
      RemoveKeepsTables(m, h, raw, e);
      KeptLadder(m.cfg, db, RemoveOutcome(m, h, raw, e).host.vault.db, n);
  }

  lemma AddKeepsLadder(m: Setup, h: Host, raw: string, e: Env, n: nat)
    requires Api.Sound(m.cfg, h.vault.db) && Ladder(m.cfg, h.vault.db, n)
    ensures var db, after := h.vault.db, AddOutcome(m, h, raw, e).host.vault.db;
      Ladder(m.cfg, after, Max(n, |after.users|)) && SamePorts(db, after)
  {
    hide Api.Sound, AddOutcome, ChosenPort, TrimSpace, OthersAlike;
    var db, after := h.vault.db, AddOutcome(m, h, raw, e).host.vault.db;
    LadderMeansPorts(m.cfg, db, n);
    AddKeepsTables(m, h, raw, e);
    forall u | u in after.users ensures OnRung(Ports.Settings(m.cfg), after.users[u].port, Max(n, |after.users|)) {
      if u in db.users {
        RungStays(Ports.Settings(m.cfg), db.users[u].port, n, Max(n, |after.users|));
      } else {
        AllocatedRung(m.cfg, db, u, after.users[u].port);
        RungStays(Ports.Settings(m.cfg), after.users[u].port, |db.users| + 1, Max(n, |after.users|));
      }
    }
  }
}
