/** The life of a managed user: adding, pausing, resuming and removing, as sequences of commands,
    store statements and publisher calls, any of which may fail. */
module Users {
  import opened Text
  import opened State
  import opened Identity
  import Api
  import Backup
  import Ports

  // ----- Commands and their outcomes -----

  datatype Command =
    | UserAdd | EnableLinger | LookupUid | StartUserManager | InstallRuntime | WriteCli | WriteGatewayStart
    | WriteOnboardEnv | Onboard | WriteGatewayUnit | WriteWatcherUnit | ProtectDir | ProtectConfig | DaemonReload
    | EnableGateway | EnableWatcher | CheckCli | CheckStateDir | CheckConfig | CheckOverlayDir | CheckGatewayUnit
    | CheckWatcherUnit | GatewayIsActive | WatcherIsActive
    | StopServices | DisableLinger | Uninstall | UserDel

  /** A publisher call may fail before it changed anything, or after. */
  datatype CallFault = Works | FailsBefore | FailsAfter

  /** What the environment decides during one operation. An existing account makes `UserAdd` fail
      in a way that is tolerated. */
  datatype Env = Env(failing: set<Command>, alreadyExists: bool, uid: int, random: bool, enabling: CallFault,
                     pausing: set<Command>, disabling: CallFault, deleting: CallFault, backup: Backup.Env)

  datatype Error = BadName(cause: NameError) | NoDomain | StoreFailed(reason: StoreError)
    | BadPorts(problem: Ports.PortError)
    | NoRandom | CommandFailed(command: Command) | PublisherFailed | BackupFailed(fault: Backup.Error)

  datatype Effect =
    | Ran(command: Command, passed: bool)
    | RowSaved(status: UserStatus) | RowRestored | RowWithdrawn | RowDeleted
    | RoutesOpened(done: bool) | RoutesClosed(done: bool) | RoutesDropped(done: bool)
    | BackedUp(done: bool)

  datatype Event = Event(username: string, effect: Effect)

  datatype Host = Host(vault: Backup.Vault, trace: seq<Event>)

  /** The publisher records routes in the store itself, or asks the route service to. */
  datatype Publisher = Recorder | Client

  /** With the hook set, removal backs up first. */
  datatype Setup = Setup(cfg: MaybeConfig, publisher: Publisher, backups: Backup.Settings, hook: bool)

  datatype Done = Done(host: Host, err: Option<Error>)

  function Did(h: Host, username: string, effect: Effect): Host {
    h.(trace := h.trace + [Event(username, effect)])
  }

  function WithDb(h: Host, db: Db): Host { h.(vault := h.vault.(db := db)) }

  /** The commands run until one fails. */
  function CommandTrace(username: string, commands: seq<Command>, failing: set<Command>): seq<Event> {
    if commands == [] then []
    else if commands[0] in failing then [Event(username, Ran(commands[0], false))]
    else [Event(username, Ran(commands[0], true))] + CommandTrace(username, commands[1..], failing)
  }

  function FirstFailing(commands: seq<Command>, failing: set<Command>): Option<Error> {
    if commands == [] then None
    else if commands[0] in failing then Some(CommandFailed(commands[0]))
    else FirstFailing(commands[1..], failing)
  }

  function Attempt(h: Host, username: string, commands: seq<Command>, failing: set<Command>): Done {
    Done(h.(trace := h.trace + CommandTrace(username, commands, failing)), FirstFailing(commands, failing))
  }

  // ----- The publisher -----

  datatype Called = Called(db: Db, done: bool)

  function EnableUserGateway(cfg: MaybeConfig, db: Db, u: User, f: CallFault): Called {
    if f == FailsBefore || GatewayHostname(cfg, u.username).None? then Called(db, false)
    else
      var o := PutRoute(db, Api.GatewayRoute(u.username, u.port, GatewayHostname(cfg, u.username).value));
      Called(o.db, o.err.None? && f == Works)
  }

  function DisableUserRoutes(db: Db, username: string, f: CallFault): Called {
    if f == FailsBefore then Called(db, false) else Called(SetRoutesEnabled(db, username, false).db, f == Works)
  }

  /** The route service only knows how to delete the gateway route. */
  function DeleteUserRoutes(p: Publisher, db: Db, username: string, f: CallFault): Called {
    if f == FailsBefore then Called(db, false)
    else
      var o := if p.Recorder? then DeleteRoutesByUser(db, username) else DeleteRoute(db, GatewayRouteId(username));
      Called(o.db, f == Works)
  }

  // ----- Adding -----

  function ChosenPort(cfg: MaybeConfig, db: Db, username: string): Result<int, Ports.PortError> {
    if username in db.users && db.users[username].port != 0 then Ok(db.users[username].port)
    else Ports.Allocated(cfg, Ports.UsedPorts(db.users.Values))
  }

  function KnownUid(db: Db, username: string): int {
    if username in db.users then db.users[username].uid else 0
  }

  /** The port to use, if nothing speaks against adding before the first command. */
  function Planned(cfg: MaybeConfig, db: Db, username: string, e: Env): Result<int, Error> {
    if ValidateUsername(username).Err? then Err(BadName(ValidateUsername(username).error))
    else if GatewayHostname(cfg, username).None? then Err(NoDomain)
    else
      var port := ChosenPort(cfg, db, username);
      if port.Err? then Err(BadPorts(port.error)) else if !e.random then Err(NoRandom) else Ok(port.value)
  }

  const READINESS := [CheckCli, CheckStateDir, CheckConfig, CheckOverlayDir, CheckGatewayUnit, CheckWatcherUnit,
                      GatewayIsActive, WatcherIsActive]

  function Provisioning(uid: int): seq<Command> {
    [UserAdd, EnableLinger] + (if uid == 0 then [LookupUid] else [])
      + [StartUserManager, InstallRuntime, WriteCli, WriteGatewayStart, WriteOnboardEnv, Onboard, WriteGatewayUnit,
         WriteWatcherUnit, ProtectDir, ProtectConfig, DaemonReload, EnableGateway, EnableWatcher] + READINESS
  }

  function Fatal(e: Env): set<Command> { if e.alreadyExists then e.failing - {UserAdd} else e.failing }

  function NewRow(cfg: MaybeConfig, db: Db, username: string, port: int, e: Env): User
    requires GatewayHostname(cfg, username).Some?
  {
    User(username, if KnownUid(db, username) == 0 then e.uid else KnownUid(db, username), port, Active, true,
         "https://" + GatewayHostname(cfg, username).value)
  }

  /** Save the row and open the gateway; if that fails, put the previous row back. */
  function Open(m: Setup, h: Host, row: User, fault: CallFault): Done {
    var db := h.vault.db;
    var o := PutUser(db, row);
    if o.err.Some? then Done(h, Some(StoreFailed(o.err.value)))
    else
      var saved := Did(WithDb(h, o.db), row.username, RowSaved(Active));
      var c := EnableUserGateway(m.cfg, o.db, row, fault);
      var called := Did(WithDb(saved, c.db), row.username, RoutesOpened(c.done));
      if c.done then Done(called, None)
      else if row.username in db.users then
        Done(Did(WithDb(called, PutUser(c.db, db.users[row.username]).db), row.username, RowRestored),
             Some(PublisherFailed))
      else
        Done(Did(WithDb(called, DeleteUser(c.db, row.username).db), row.username, RowWithdrawn), Some(PublisherFailed))
  }

  function AddOutcome(m: Setup, h: Host, raw: string, e: Env): Done {
    var username, db := TrimSpace(raw), h.vault.db;
    var plan := Planned(m.cfg, db, username, e);
    if plan.Err? then Done(h, Some(plan.error))
    else
      var tried := Attempt(h, username, Provisioning(KnownUid(db, username)), Fatal(e));
      if tried.err.Some? then tried
      else Open(m, tried.host, NewRow(m.cfg, db, username, plan.value, e), e.enabling)
  }

  // ----- Pausing and resuming -----

  function PausedRow(u: User): User { u.(status := Paused, linger := false) }

  function Close(m: Setup, h: Host, username: string, u: User, fault: CallFault): Done {
    var c := DisableUserRoutes(h.vault.db, username, fault);
    var called := Did(WithDb(h, c.db), username, RoutesClosed(c.done));
    if !c.done then Done(called, Some(PublisherFailed))
    else
      var o := PutUser(c.db, PausedRow(u));
      if o.err.Some? then Done(called, Some(StoreFailed(o.err.value)))
      else Done(Did(WithDb(called, o.db), username, RowSaved(Paused)), None)
  }

  function DeactivateOutcome(m: Setup, h: Host, username: string, e: Env): Done {
    var db := h.vault.db;
    if username !in db.users then Done(h, Some(StoreFailed(NoUser)))
    else if db.users[username].status == Paused then Done(h, None)
    else
      var tried := Attempt(h, username, [StopServices, DisableLinger], e.pausing);
      if tried.err.Some? then tried else Close(m, tried.host, username, db.users[username], e.disabling)
  }

  function ActivateOutcome(m: Setup, h: Host, username: string, e: Env): Done {
    if username !in h.vault.db.users then Done(h, Some(StoreFailed(NoUser)))
    else AddOutcome(m, h, h.vault.db.users[username].username, e)
  }

  // ----- Removing -----

  function BackUp(m: Setup, h: Host, username: string, e: Backup.Env): Done {
    if !m.hook then Done(h, None)
    else
      var b := Backup.CreateBackup(m.backups, h.vault, username, e);
      Done(Did(h.(vault := b.vault), username, BackedUp(b.result.Ok?)),
           if b.result.Ok? then None else Some(BackupFailed(b.result.error)))
  }

  /** From the first destructive step on. */
  function Destroy(m: Setup, h: Host, username: string, e: Env): Done {
    var c := DeleteUserRoutes(m.publisher, h.vault.db, username, e.deleting);
    var called := Did(WithDb(h, c.db), username, RoutesDropped(c.done));
    if !c.done then Done(called, Some(PublisherFailed))
    else
      var tried := Attempt(called, username, [Uninstall, DisableLinger, UserDel], e.failing);
      if tried.err.Some? then tried
      else
        var o := DeleteUser(tried.host.vault.db, username);
        if o.err.Some? then Done(tried.host, Some(StoreFailed(o.err.value)))
        else Done(Did(WithDb(tried.host, o.db), username, RowDeleted), None)
  }

  function RemoveOutcome(m: Setup, h: Host, raw: string, e: Env): Done {
    var username := TrimSpace(raw);
    if username !in h.vault.db.users then Done(h, Some(StoreFailed(NoUser)))
    else
      var paused := if h.vault.db.users[username].status == Active then DeactivateOutcome(m, h, username,
          e) else Done(h, None);
      if paused.err.Some? then paused
      else
        var saved := BackUp(m, paused.host, username, e.backup);
        if saved.err.Some? then saved else Destroy(m, saved.host, username, e)
  }

  // ----- Runs -----

  datatype Op = AddUser(raw: string) | ActivateUser(username: string) | DeactivateUser(username: string)
    | RemoveUser(raw: string)

  function Step(m: Setup, h: Host, op: Op, e: Env): Done {
    match op
    case AddUser(raw) => AddOutcome(m, h, raw, e)
    case ActivateUser(u) => ActivateOutcome(m, h, u, e)
    case DeactivateUser(u) => DeactivateOutcome(m, h, u, e)
    case RemoveUser(raw) => RemoveOutcome(m, h, raw, e)
  }

  /** Work on the shared tables: a user operation, or a change made by the route service. */
  datatype Work = ByUser(op: Op, env: Env) | ByRoute(change: Api.Op)

  function Do(m: Setup, h: Host, w: Work): Host {
    match w
    case ByUser(op, e) => Step(m, h, op, e).host
    case ByRoute(change) => WithDb(h, Api.Change(m.cfg, h.vault.db, change).db)
  }

  function Run(m: Setup, h: Host, history: seq<Work>): Host
    decreases |history|
  {
    if history == [] then h else Run(m, Do(m, h, history[0]), history[1..])
  }

  // ----- What adding does to the tables -----

  /** The gateway row of a user. */
  function GatewayRow(cfg: MaybeConfig, u: User): Route
    requires GatewayHostname(cfg, u.username).Some?
  {
    Api.GatewayRoute(u.username, u.port, GatewayHostname(cfg, u.username).value)
  }

  function Opened(cfg: MaybeConfig, db: Db, u: User): Db
    requires GatewayHostname(cfg, u.username).Some?
  {
    WithRoute(WithUser(db, u), GatewayRow(cfg, u))
  }

  /** The chosen port is positive and no other user has it, so the unique port never rejects. */
  lemma ChosenPortIsFree(cfg: MaybeConfig, db: Db, u: User)
    requires Integrity(db) && ChosenPort(cfg, db, u.username) == Ok(u.port)
    ensures !PortTaken(db, u)
  {
    if !(u.username in db.users && db.users[u.username].port != 0) {
      var used := Ports.UsedPorts(db.users.Values);
      Ports.AllocationIsTight(cfg, used);
      var k :| Ports.IsLowestFree(Ports.Settings(cfg), used, k)
        && Ports.Allocated(cfg, used) == Ok(Ports.PortAt(Ports.Settings(cfg), k));
      RungIsPositive(Ports.Settings(cfg), k);
      forall v | v in db.users ensures db.users[v].port != u.port { assert db.users[v] in db.users.Values; }
    }
  }

  lemma RungIsPositive(cfg: OverlayConfig, k: int)
    requires Ports.GoodRange(cfg) && k >= 0
    ensures Ports.PortAt(cfg, k) > 0
  {
    if k > 0 { Ports.RungsGrow(cfg, 0, k); }
  }

  /** Saving a valid user keeps the tables sound, and the gateway row is then never refused. */
  lemma OpeningIsAccepted(cfg: MaybeConfig, db: Db, u: User)
    requires Api.Sound(cfg, db) && ValidUsername(u.username) && HasDomain(cfg) && !PortTaken(db, u) && u.port > 0
    ensures PutUser(db, u) == Outcome(WithUser(db, u), None) && Api.Sound(cfg, WithUser(db, u))
    ensures PutRoute(WithUser(db, u), GatewayRow(cfg, u)) == Outcome(Opened(cfg, db, u), None)
    ensures Api.Sound(cfg, Opened(cfg, db, u))
  {
    hide Integrity, ValidUsername, WellNamedRow, PortTaken, HostnameTaken;
    PutUserAcceptsLegalTables(db, u);
    var saved := WithUser(db, u);
    assert PutUser(db, u).err.None? by { ShownFree(db, u); }
    assert Api.Sound(cfg, saved);
    Api.GatewayUpsertIsAccepted(cfg, saved, u.username, u.port);
    Api.GatewayRowIsWellNamed(cfg, u.username, u.port);
    Api.PutKeepsSound(cfg, saved, GatewayRow(cfg, u));
  }

  lemma ShownFree(db: Db, u: User)
    requires !PortTaken(db, u)
    ensures PutUser(db, u) == Outcome(WithUser(db, u), None)
  {}

  /** Adding gets as far as the publisher. */
  predicate Provisioned(m: Setup, db: Db, username: string, e: Env) {
    && Planned(m.cfg, db, username, e).Ok?
    && FirstFailing(Provisioning(KnownUid(db, username)), Fatal(e)).None?
  }

  /** Undoing the row after the publisher failed: the previous row comes back; without one, the
      row goes and takes the routes of the user along. */
  function Undone(cfg: MaybeConfig, db: Db, username: string, called: Db): Db {
    if username in db.users then WithUser(called, db.users[username]) else DeleteUser(called, username).db
  }

  /** The table after adding, in full: unchanged before the publisher is reached, opened on
      success, and otherwise undone from what the publisher left. */
  lemma AddedTables(m: Setup, h: Host, raw: string, e: Env)
    requires Api.Sound(m.cfg, h.vault.db) && NoZeroPort(h.vault.db)
    ensures var db, username, d := h.vault.db, TrimSpace(raw), AddOutcome(m, h, raw, e);
      if !Provisioned(m, db, username, e) then d.err.Some? && d.host.vault == h.vault
      else
        var row := NewRow(m.cfg, db, username, Planned(m.cfg, db, username, e).value, e);
        && row.port > 0 && !PortTaken(db, row) && ValidUsername(username) && HasDomain(m.cfg)
        && d.host.vault.files == h.vault.files
        && match e.enabling
           case Works => d.err.None? && d.host.vault.db == Opened(m.cfg, db, row)
           case FailsBefore => d.err.Some? && d.host.vault.db == Undone(m.cfg, db, username, WithUser(db, row))
           case FailsAfter => d.err.Some? && d.host.vault.db == Undone(m.cfg, db, username, Opened(m.cfg, db, row))
  {
    var db, username := h.vault.db, TrimSpace(raw);
    hide TrimSpace, CommandTrace, FirstFailing, Provisioning;
    if Provisioned(m, db, username, e) {
      var row := NewRow(m.cfg, db, username, Planned(m.cfg, db, username, e).value, e);
      ChosenPortIsFree(m.cfg, db, row);
      ChosenPortIsPositive(m.cfg, db, username);
      OpeningIsAccepted(m.cfg, db, row);
      var tried := Attempt(h, username, Provisioning(KnownUid(db, username)), Fatal(e));
      OpenTables(m, tried.host, row, e.enabling);
    }
  }

  /** Every user has a port. */
  predicate NoZeroPort(db: Db) { forall u :: u in db.users ==> db.users[u].port > 0 }

  lemma ChosenPortIsPositive(cfg: MaybeConfig, db: Db, username: string)
    requires NoZeroPort(db) && ChosenPort(cfg, db, username).Ok?
    ensures ChosenPort(cfg, db, username).value > 0
  {
    if username !in db.users {
      var used := Ports.UsedPorts(db.users.Values);
      Ports.AllocationIsTight(cfg, used);
      var k :| Ports.IsLowestFree(Ports.Settings(cfg), used, k)
        && Ports.Allocated(cfg, used) == Ok(Ports.PortAt(Ports.Settings(cfg), k));
      RungIsPositive(Ports.Settings(cfg), k);
    }
  }

  lemma OpenTables(m: Setup, h: Host, row: User, fault: CallFault)
    requires Api.Sound(m.cfg, h.vault.db) && ValidUsername(row.username) && HasDomain(m.cfg)
    requires !PortTaken(h.vault.db, row) && row.port > 0
    ensures var d, db := Open(m, h, row, fault), h.vault.db;
      && d.host.vault.files == h.vault.files
      && match fault
         case Works => d.err.None? && d.host.vault.db == Opened(m.cfg, db, row)
         case FailsBefore => d.err.Some? && d.host.vault.db == Undone(m.cfg, db, row.username, WithUser(db, row))
         case FailsAfter => d.err.Some? && d.host.vault.db == Undone(m.cfg, db, row.username, Opened(m.cfg, db, row))
  {
    hide Api.Sound, PortTaken, WithRoute, WithUser, PutRoute, PutUser, DeleteUser;
    OpeningIsAccepted(m.cfg, h.vault.db, row);
    if row.username in h.vault.db.users { PreviousRowFits(m.cfg, h.vault.db, row); }
  }

  /** The previous row can always be put back. */
  lemma PreviousRowFits(cfg: MaybeConfig, db: Db, row: User)
    requires Api.Sound(cfg, db) && row.username in db.users && GatewayHostname(cfg, row.username).Some?
    ensures PutUser(WithUser(db, row), db.users[row.username])
      == Outcome(WithUser(WithUser(db, row), db.users[row.username]), None)
    ensures PutUser(Opened(cfg, db, row), db.users[row.username])
      == Outcome(WithUser(Opened(cfg, db, row), db.users[row.username]), None)
  {
    var saved, previous := WithUser(db, row), db.users[row.username];
    forall k | k in saved.users && k != row.username
      ensures previous.port == 0 || saved.users[k].port != previous.port
    {
      assert saved.users[k] == db.users[k];
    }
  }

  /** When adding fails, the tables are exactly as before, unless the publisher committed and then
      failed for a user that had a row but not this very gateway row. */
  lemma AddFailureIsExact(m: Setup, h: Host, raw: string, e: Env)
    requires Api.Sound(m.cfg, h.vault.db) && NoZeroPort(h.vault.db) && AddOutcome(m, h, raw, e).err.Some?
    ensures var db, username := h.vault.db, TrimSpace(raw);
      AddOutcome(m, h, raw, e).host.vault == h.vault <==>
        || !Provisioned(m, db, username, e) || e.enabling != FailsAfter || username !in db.users
        || HasGatewayRow(m.cfg, db, db.users[username])
  {
    AddedTables(m, h, raw, e);
    var db, username := h.vault.db, TrimSpace(raw);
    if Provisioned(m, db, username, e) {
      var row := NewRow(m.cfg, db, username, Planned(m.cfg, db, username, e).value, e);
      UndoRestores(m.cfg, db, row);
    }
  }

  /** The store holds the gateway row that opening the user writes. */
  predicate HasGatewayRow(cfg: MaybeConfig, db: Db, u: User) {
    && GatewayHostname(cfg, u.username).Some?
    && GatewayRouteId(u.username) in db.routes && db.routes[GatewayRouteId(u.username)] == GatewayRow(cfg, u)
  }

  lemma UndoRestores(cfg: MaybeConfig, db: Db, row: User)
    requires Api.Sound(cfg, db) && GatewayHostname(cfg, row.username).Some?
    ensures Undone(cfg, db, row.username, WithUser(db, row)) == db
    ensures Undone(cfg, db, row.username, Opened(cfg, db, row)) == db
      <==> row.username !in db.users || HasGatewayRow(cfg, db, row)
  {
    if row.username in db.users { RowComesBack(cfg, db, row); } else { RowGoes(cfg, db, row); }
    hide Api.Sound, Undone, Opened, WithUser;
  }

  lemma RowComesBack(cfg: MaybeConfig, db: Db, row: User)
    requires Integrity(db) && GatewayHostname(cfg, row.username).Some? && row.username in db.users
    ensures Undone(cfg, db, row.username, WithUser(db, row)) == db
    ensures Undone(cfg, db, row.username, Opened(cfg, db, row)) == WithRoute(db, GatewayRow(cfg, row))
    ensures WithRoute(db, GatewayRow(cfg, row)) == db <==> HasGatewayRow(cfg, db, row)
  {
    var u := row.username;
    assert Stored(db.users[u]) == db.users[u];
    assert db.users[u := Stored(row)][u := db.users[u]] == db.users;
    var id := GatewayRouteId(u);
    assert WithRoute(db, GatewayRow(cfg, row)).routes == db.routes[id := GatewayRow(cfg, row)];
    hide Integrity;
    assert db.routes[id := GatewayRow(cfg, row)] == db.routes
      <==> id in db.routes && db.routes[id] == GatewayRow(cfg, row);
  }

  lemma RowGoes(cfg: MaybeConfig, db: Db, row: User)
    requires Api.Sound(cfg, db) && GatewayHostname(cfg, row.username).Some? && row.username !in db.users
    ensures Undone(cfg, db, row.username, WithUser(db, row)) == db
    ensures Undone(cfg, db, row.username, Opened(cfg, db, row)) == db
  {
    var u := row.username;
    NoRoutesWithoutUser(cfg, db, u);
    hide Api.Sound, Stored, RoutesExceptUser, GatewayRouteId, GatewayHostname;
    OnlyNewRouteGoes(db.routes, u, GatewayRow(cfg, row));
    assert db.users[u := Stored(row)] - {u} == db.users;
  }

  lemma OnlyNewRouteGoes(routes: map<string, Route>, username: string, row: Route)
    requires row.username == username && row.id !in routes
    requires forall id :: id in routes ==> routes[id].username != username
    ensures RoutesExceptUser(routes, username) == routes == RoutesExceptUser(routes[row.id := row], username)
  {}

  lemma NoRoutesWithoutUser(cfg: MaybeConfig, db: Db, username: string)
    requires Api.Sound(cfg, db) && username !in db.users
    ensures forall id :: id in db.routes ==> db.routes[id].username != username
    ensures GatewayRouteId(username) !in db.routes
  {
    if GatewayRouteId(username) in db.routes { GatewayIdIsOwn(cfg, db, username); }
  }

  /** A row under a user's gateway ID is that user's gateway row. */
  lemma GatewayIdIsOwn(cfg: MaybeConfig, db: Db, username: string)
    requires Api.Sound(cfg, db) && GatewayRouteId(username) in db.routes
    ensures var row := db.routes[GatewayRouteId(username)];
      row.username == username && row.kind == Gateway && username in db.users
  {
    hide Integrity, WellNamed, ValidUsername, DecodeRouteId;
    var row := db.routes[GatewayRouteId(username)];
    RowFacts(cfg, db, GatewayRouteId(username));
    forall u: string, p: string, h: string ensures PluginRouteId(u, p, h) != GatewayRouteId(username) {
      assert PluginRouteId(u, p, h)[0] == 'p' && GatewayRouteId(username)[0] == 'g';
    }
    if row.kind == Gateway {
      assert username == GatewayRouteId(username)[8..] == GatewayRouteId(row.username)[8..] == row.username;
    }
  }

  // ----- The objects -----

  class RoutePublisher {
    const kind: Publisher
    const cfg: MaybeConfig
    const store: Store

    constructor (kind: Publisher, cfg: MaybeConfig, store: Store)
      ensures this.kind == kind && this.cfg == cfg && this.store == store
    {
      this.kind, this.cfg, this.store := kind, cfg, store;
    }

    method Enable(u: User, f: CallFault) returns (done: bool)
      modifies store
      ensures Called(store.View(), done) == EnableUserGateway(cfg, old(store.View()), u, f)
    {
      var host := GatewayHostname(cfg, u.username);
      if f == FailsBefore || host.None? { return false; }
      var err := store.UpsertRoute(Api.GatewayRoute(u.username, u.port, host.value));
      return err.None? && f == Works;
    }

    method Disable(username: string, f: CallFault) returns (done: bool)
      modifies store
      ensures Called(store.View(), done) == DisableUserRoutes(old(store.View()), username, f)
    {
      if f == FailsBefore { return false; }
      var _ := store.EnableRoutes(username, false);
      return f == Works;
    }

    method Delete(username: string, f: CallFault) returns (done: bool)
      modifies store
      ensures Called(store.View(), done) == DeleteUserRoutes(kind, old(store.View()), username, f)
    {
      if f == FailsBefore { return false; }
      if kind.Recorder? {
        var _ := store.RemoveRoutesByUser(username);
      } else {
        var _ := store.RemoveRoute(GatewayRouteId(username));
      }
      return f == Works;
    }
  }

  class Manager {
    const setup: Setup
    const store: Store
    const backups: Backup.Manager
    const publisher: RoutePublisher
    ghost var trace: seq<Event>

    constructor (setup: Setup, store: Store, backups: Backup.Manager, publisher: RoutePublisher)
      requires backups.store == store && backups.settings == setup.backups
      requires publisher.store == store && publisher.kind == setup.publisher && publisher.cfg == setup.cfg
      ensures Valid() && this.setup == setup && this.store == store && this.backups == backups && trace == []
    {
      this.setup, this.store, this.backups, this.publisher := setup, store, backups, publisher;
      trace := [];
    }

    ghost predicate Valid() {
      && backups.store == store && backups.settings == setup.backups
      && publisher.store == store && publisher.kind == setup.publisher && publisher.cfg == setup.cfg
    }

    ghost function View(): Host
      reads this, store, backups
    {
      Host(Backup.Vault(store.View(), backups.files), trace)
    }

    ghost method Note(username: string, effect: Effect)
      modifies this`trace
      ensures trace == old(trace) + [Event(username, effect)]
    {
      trace := trace + [Event(username, effect)];
    }

    method RunCommands(username: string, commands: seq<Command>, failing: set<Command>) returns (err: Option<Error>)
      modifies this`trace
      ensures Done(View(), err) == Attempt(old(View()), username, commands, failing)
    {
      for i := 0 to |commands|
        invariant trace + CommandTrace(username, commands[i..], failing)
          == old(trace) + CommandTrace(username, commands, failing)
        invariant FirstFailing(commands[i..], failing) == FirstFailing(commands, failing)
      {
        var passed := commands[i] !in failing;
        assert commands[i..][0] == commands[i] && commands[i..][1..] == commands[i + 1..];
        Note(username, Ran(commands[i], passed));
        if !passed { return Some(CommandFailed(commands[i])); }
      }
      err := None;
    }

    method AddUserRow(row: User, fault: CallFault) returns (err: Option<Error>)
      requires Valid()
      modifies store, this`trace
      ensures Done(View(), err) == Open(setup, old(View()), row, fault)
    {
      var previous := store.GetUser(row.username);
      var saved := store.UpsertUser(row);
      if saved.Some? { return Some(StoreFailed(saved.value)); }
      Note(row.username, RowSaved(Active));
      var done := publisher.Enable(row, fault);
      Note(row.username, RoutesOpened(done));
      if done { return None; }
      if previous.Ok? {
        var _ := store.UpsertUser(previous.value);
        Note(row.username, RowRestored);
      } else {
        var _ := store.RemoveUser(row.username);
        Note(row.username, RowWithdrawn);
      }
      return Some(PublisherFailed);
    }

    method Add(raw: string, e: Env) returns (err: Option<Error>)
      requires Valid()
      modifies this, store, backups
      ensures Done(View(), err) == AddOutcome(setup, old(View()), raw, e)
    {
      var username := TrimSpace(raw);
      var name := ValidateUsername(username);
      if name.Err? { return Some(BadName(name.error)); }
      var host := GatewayHostname(setup.cfg, username);
      if host.None? { return Some(NoDomain); }
      var previous := store.GetUser(username);
      var port := 0;
      if previous.Ok? { port := previous.value.port; }
      if port == 0 {
        var existing, _ := store.ListUsers();
        var chosen := Ports.AllocateGatewayPort(setup.cfg, existing);
        if chosen.Err? { return Some(BadPorts(chosen.error)); }
        port := chosen.value;
      }
      if !e.random { return Some(NoRandom); }
      var uid := 0;
      if previous.Ok? { uid := previous.value.uid; }
      err := RunCommands(username, Provisioning(uid), Fatal(e));
      if err.Some? { return err; }
      if uid == 0 { uid := e.uid; }
      err := AddUserRow(User(username, uid, port, Active, true, "https://" + host.value), e.enabling);
    }

    method Deactivate(username: string, e: Env) returns (err: Option<Error>)
      requires Valid()
      modifies this, store, backups
      ensures Done(View(), err) == DeactivateOutcome(setup, old(View()), username, e)
    {
      var user := store.GetUser(username);
      if user.Err? { return Some(StoreFailed(user.error)); }
      if user.value.status == Paused { return None; }
      err := RunCommands(username, [StopServices, DisableLinger], e.pausing);
      if err.Some? { return err; }
      var u := user.value;
      var done := publisher.Disable(username, e.disabling);
      Note(username, RoutesClosed(done));
      if !done { return Some(PublisherFailed); }
      var saved := store.UpsertUser(u.(status := Paused, linger := false));
      if saved.Some? { return Some(StoreFailed(saved.value)); }
      Note(username, RowSaved(Paused));
      return None;
    }

    method Activate(username: string, e: Env) returns (err: Option<Error>)
      requires Valid()
      modifies this, store, backups
      ensures Done(View(), err) == ActivateOutcome(setup, old(View()), username, e)
    {
      var user := store.GetUser(username);
      if user.Err? { return Some(StoreFailed(user.error)); }
      err := Add(user.value.username, e);
    }

    method BackUpFirst(username: string, e: Backup.Env) returns (err: Option<Error>)
      requires Valid()
      modifies this, store, backups
      ensures Done(View(), err) == BackUp(setup, old(View()), username, e)
    {
      if !setup.hook { return None; }
      var b := backups.Create(username, e);
      Note(username, BackedUp(b.Ok?));
      return if b.Ok? then None else Some(BackupFailed(b.error));
    }

    method DestroyUser(username: string, e: Env) returns (err: Option<Error>)
      requires Valid()
      modifies this, store, backups
      ensures Done(View(), err) == Destroy(setup, old(View()), username, e)
    {
      var done := publisher.Delete(username, e.deleting);
      Note(username, RoutesDropped(done));
      if !done { return Some(PublisherFailed); }
      err := RunCommands(username, [Uninstall, DisableLinger, UserDel], e.failing);
      if err.Some? { return err; }
      var gone := store.RemoveUser(username);
      if gone.Some? { return Some(StoreFailed(gone.value)); }
      Note(username, RowDeleted);
      return None;
    }

    method Remove(raw: string, e: Env) returns (err: Option<Error>)
      requires Valid()
      modifies this, store, backups
      ensures Done(View(), err) == RemoveOutcome(setup, old(View()), raw, e)
    {
      var username := TrimSpace(raw);
      var user := store.GetUser(username);
      if user.Err? { return Some(StoreFailed(user.error)); }
      if user.value.status == Active {
        err := Deactivate(username, e);
        if err.Some? { return err; }
      }
      err := BackUpFirst(username, e.backup);
      if err.Some? { return err; }
      err := DestroyUser(username, e);
    }
  }
}
