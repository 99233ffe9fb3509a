/** The state store: four tables with the constraints of the database schema, the
    statements the store issues against them, and the class whose methods run them. */
module State {
  import opened Text

  datatype UserStatus = Unset | Active | Paused

  /** Numeric fields use 0 for a missing value, as the queries do. */
  datatype User = User(username: string, uid: int, port: int, status: UserStatus, linger: bool, gatewayUrl: string)

  datatype RouteKind = Gateway | Plugin

  datatype Route = Route(id: string, username: string, kind: RouteKind, pluginId: string,
                         localPort: int, hostname: string, enabled: bool)

  datatype Backup = Backup(id: string, username: string, ts: string, size: nat, sha256: string,
                           encrypted: bool, path: string)

  datatype Admin = Admin(username: string, uid: int, setBy: string)

  datatype StoreError = NoAdmin | NoUser | NoRoute | NoBackup | Constraint

  datatype Db = Db(users: map<string, User>, routes: map<string, Route>,
                   backups: map<string, Backup>, admins: map<string, Admin>)

  datatype Outcome = Outcome(db: Db, err: Option<StoreError>)

  const EMPTY := Db(map[], map[], map[], map[])

  // ----- The constraints of the schema -----

  predicate UniquePorts(users: map<string, User>) {
    forall a, b :: a in users && b in users && a != b && users[a].port != 0 ==> users[a].port != users[b].port
  }

  predicate UniqueHostnames(routes: map<string, Route>) {
    forall a, b :: a in routes && b in routes && a != b ==> routes[a].hostname != routes[b].hostname
  }

  predicate OwnedRoutes(db: Db) {
    forall id :: id in db.routes ==> db.routes[id].username in db.users
  }

  predicate PrimaryKeys(db: Db) {
    && (forall k :: k in db.users ==> db.users[k].username == k)
    && (forall k :: k in db.routes ==> db.routes[k].id == k)
    && (forall k :: k in db.backups ==> db.backups[k].id == k)
    && (forall k :: k in db.admins ==> db.admins[k].username == k)
  }

  predicate Integrity(db: Db) {
    && PrimaryKeys(db)
    && UniquePorts(db.users)
    && UniqueHostnames(db.routes)
    && OwnedRoutes(db)
    && (forall k :: k in db.users ==> db.users[k].status != Unset)
    && (forall a, b :: a in db.admins && b in db.admins ==> a == b)
  }

  // ----- Statements -----

  /** An empty status is stored as active. */
  function Stored(u: User): User {
    if u.status == Unset then u.(status := Active) else u
  }

  predicate PortTaken(db: Db, u: User) {
    u.port != 0 && exists k :: k in db.users && k != u.username && db.users[k].port == u.port
  }

  predicate HostnameTaken(db: Db, r: Route) {
    exists k :: k in db.routes && k != r.id && db.routes[k].hostname == r.hostname
  }

  function WithUser(db: Db, u: User): Db { db.(users := db.users[u.username := Stored(u)]) }

  function WithRoute(db: Db, r: Route): Db { db.(routes := db.routes[r.id := r]) }

  function PutUser(db: Db, u: User): Outcome {
    if PortTaken(db, u) then Outcome(db, Some(Constraint)) else Outcome(WithUser(db, u), None)
  }

  function SetUserStatus(db: Db, username: string, status: UserStatus): Outcome {
    if username !in db.users then Outcome(db, Some(NoUser))
    else Outcome(db.(users := db.users[username := db.users[username].(status := status)]), None)
  }

  function RoutesExceptUser(routes: map<string, Route>, username: string): map<string, Route> {
    map id | id in routes && routes[id].username != username :: routes[id]
  }

  function DeleteUser(db: Db, username: string): Outcome {
    if username !in db.users then Outcome(db, Some(NoUser))
    else Outcome(db.(users := db.users - {username}, routes := RoutesExceptUser(db.routes, username)), None)
  }

  function PutRoute(db: Db, r: Route): Outcome {
    if r.username !in db.users || HostnameTaken(db, r) then Outcome(db, Some(Constraint))
    else Outcome(WithRoute(db, r), None)
  }

  function DeleteRoute(db: Db, id: string): Outcome {
    if id !in db.routes then Outcome(db, Some(NoRoute)) else Outcome(db.(routes := db.routes - {id}), None)
  }

  function DeleteRoutesByUser(db: Db, username: string): Outcome {
    Outcome(db.(routes := RoutesExceptUser(db.routes, username)), None)
  }

  function SetRoutesEnabled(db: Db, username: string, enabled: bool): Outcome {
    var routes := map id | id in db.routes ::
      if db.routes[id].username == username then db.routes[id].(enabled := enabled) else db.routes[id];
    Outcome(db.(routes := routes), None)
  }

  function PutBackup(db: Db, b: Backup): Outcome {
    Outcome(db.(backups := db.backups[b.id := b]), None)
  }

  function DeleteBackup(db: Db, id: string): Outcome {
    if id !in db.backups then Outcome(db, Some(NoBackup)) else Outcome(db.(backups := db.backups - {id}), None)
  }

  function SetAdmin(db: Db, a: Admin): Outcome {
    Outcome(db.(admins := map[a.username := a]), None)
  }

  // ----- What the statements mean -----

  /** A user row is accepted exactly when the table that would result meets the schema. */
  lemma PutUserAcceptsLegalTables(db: Db, u: User)
    requires Integrity(db)
    ensures PutUser(db, u).err.None? <==> Integrity(WithUser(db, u))
    ensures PutUser(db, u).err.Some? ==> PutUser(db, u).db == db
  {
    var next := WithUser(db, u);
    if PortTaken(db, u) {
      var k :| k in db.users && k != u.username && db.users[k].port == u.port;
      assert u.username in next.users && k in next.users;
    }
  }

  /** A route row is accepted exactly when the table that would result meets the schema. */
  lemma PutRouteAcceptsLegalTables(db: Db, r: Route)
    requires Integrity(db)
    ensures PutRoute(db, r).err.None? <==> Integrity(WithRoute(db, r))
    ensures PutRoute(db, r).err.Some? ==> PutRoute(db, r).db == db
  {
    var next := WithRoute(db, r);
    if HostnameTaken(db, r) {
      var k :| k in db.routes && k != r.id && db.routes[k].hostname == r.hostname;
      assert r.id in next.routes && k in next.routes;
    }
    assert r.id in next.routes;
  }

  /** What is put can be read back, a user without a status as active, and no other row of any table
      changes; there is never a second admin. */
  lemma PutsAreExact(db: Db, u: User, r: Route, b: Backup, a: Admin)
    ensures PutUser(db, u).err.None? ==>
      PutUser(db, u).db == db.(users := db.users[u.username :=
        u.(status := if u.status == Paused then Paused else Active)])
    ensures PutRoute(db, r).err.None? ==> PutRoute(db, r).db == db.(routes := db.routes[r.id := r])
    ensures PutBackup(db, b) == Outcome(db.(backups := db.backups[b.id := b]), None)
    ensures SetAdmin(db, a) == Outcome(db.(admins := map[a.username := a]), None)
  {
    hide PortTaken, HostnameTaken;
  }

  /** Deleting a user takes that user's row and routes and nothing else; backups stay. */
  lemma DeleteUserIsExact(db: Db, username: string)
    requires username in db.users
    ensures var after := DeleteUser(db, username).db;
      && (forall k :: k in after.users <==> k in db.users && k != username)
      && (forall k :: k in after.users ==> after.users[k] == db.users[k])
      && (forall id :: id in after.routes <==> id in db.routes && db.routes[id].username != username)
      && (forall id :: id in after.routes ==> after.routes[id] == db.routes[id])
      && after.backups == db.backups && after.admins == db.admins
  {}

  /** The cascade takes no more than the schema demands: every legal table without the user that keeps
      the other rows as they are has at most the routes that are left. */
  lemma DeletionIsLeastChange(db: Db, username: string, other: Db)
    requires Integrity(db) && username in db.users
    requires Integrity(other) && other.users == db.users - {username}
    requires forall id :: id in other.routes ==> id in db.routes && other.routes[id] == db.routes[id]
    ensures Integrity(DeleteUser(db, username).db)
    ensures forall id :: id in other.routes ==> id in DeleteUser(db, username).db.routes
  {
    DeleteUserKeepsIntegrity(db, username);
    hide Integrity;
    assert OwnedRoutes(other) by { LegalMeansOwned(other); }
  }

  lemma LegalMeansOwned(db: Db)
    requires Integrity(db)
    ensures OwnedRoutes(db)
  {}

  datatype Statement =
    | SPutUser(user: User)
    | SSetUserStatus(username: string, status: UserStatus)
    | SDeleteUser(username: string)
    | SPutRoute(route: Route)
    | SDeleteRoute(id: string)
    | SDeleteRoutesByUser(username: string)
    | SSetRoutesEnabled(username: string, enabled: bool)
    | SPutBackup(backup: Backup)
    | SDeleteBackup(id: string)
    | SSetAdmin(admin: Admin)

  function Execute(db: Db, s: Statement): Outcome {
    match s
    case SPutUser(u) => PutUser(db, u)
    case SSetUserStatus(name, st) => if st == Unset then Outcome(db, Some(Constraint)) else SetUserStatus(db, name, st)
    case SDeleteUser(name) => DeleteUser(db, name)
    case SPutRoute(r) => PutRoute(db, r)
    case SDeleteRoute(id) => DeleteRoute(db, id)
    case SDeleteRoutesByUser(name) => DeleteRoutesByUser(db, name)
    case SSetRoutesEnabled(name, on) => SetRoutesEnabled(db, name, on)
    case SPutBackup(b) => PutBackup(db, b)
    case SDeleteBackup(id) => DeleteBackup(db, id)
    case SSetAdmin(a) => SetAdmin(db, a)
  }

  /** Every statement keeps the schema, and a rejected one changes nothing. */
  lemma StatementKeepsIntegrity(db: Db, s: Statement)
    requires Integrity(db)
    ensures Integrity(Execute(db, s).db)
    ensures Execute(db, s).err.Some? ==> Execute(db, s).db == db
  {
    hide Integrity;
    match s
    case SPutUser(u) => PutUserAcceptsLegalTables(db, u);
    case SPutRoute(r) => PutRouteAcceptsLegalTables(db, r);
    case SSetUserStatus(name, st) => if st != Unset { StatusKeepsIntegrity(db, name, st); }
    case SSetRoutesEnabled(name, on) => EnablingKeepsIntegrity(db, name, on);
    case SDeleteUser(name) => DeleteUserKeepsIntegrity(db, name);
    case SDeleteRoute(id) => RouteDeletionsKeepIntegrity(db, "", id);
    case SDeleteRoutesByUser(name) => RouteDeletionsKeepIntegrity(db, name, "");
    case SPutBackup(b) => BackupsKeepIntegrity(db, b, "");
    case SDeleteBackup(id) => BackupsKeepIntegrity(db, Backup(id, "", "", 0, "", false, ""), id);
    case SSetAdmin(a) => AdminKeepsIntegrity(db, a);
  }

  lemma BackupsKeepIntegrity(db: Db, b: Backup, id: string)
    requires Integrity(db)
    ensures Integrity(PutBackup(db, b).db) && Integrity(DeleteBackup(db, id).db)
  {
    BackupsAndAdminKeepIntegrity(db, PutBackup(db, b).db);
    BackupsAndAdminKeepIntegrity(db, DeleteBackup(db, id).db);
  }

  lemma AdminKeepsIntegrity(db: Db, a: Admin)
    requires Integrity(db)
    ensures Integrity(SetAdmin(db, a).db)
  {
    BackupsAndAdminKeepIntegrity(db, SetAdmin(db, a).db);
  }

  lemma DeleteUserKeepsIntegrity(db: Db, username: string)
    requires Integrity(db)
    ensures Integrity(DeleteUser(db, username).db)
  {
    ShrinkingKeepsIntegrity(db, DeleteUser(db, username).db);
  }

  lemma RouteDeletionsKeepIntegrity(db: Db, username: string, id: string)
    requires Integrity(db)
    ensures Integrity(DeleteRoute(db, id).db) && Integrity(DeleteRoutesByUser(db, username).db)
  {
    ShrinkingKeepsIntegrity(db, DeleteRoute(db, id).db);
    ShrinkingKeepsIntegrity(db, DeleteRoutesByUser(db, username).db);
  }

  lemma EnablingKeepsIntegrity(db: Db, username: string, on: bool)
    requires Integrity(db)
    ensures Integrity(SetRoutesEnabled(db, username, on).db)
  {
    RewritingRoutesKeepsIntegrity(db, SetRoutesEnabled(db, username, on).db);
  }

  lemma BackupsAndAdminKeepIntegrity(db: Db, next: Db)
    requires Integrity(db) && next.users == db.users && next.routes == db.routes
    requires forall k :: k in next.backups ==> next.backups[k].id == k
    requires forall k :: k in next.admins ==> next.admins[k].username == k
    requires forall a, b :: a in next.admins && b in next.admins ==> a == b
    ensures Integrity(next)
  {}

  lemma StatusKeepsIntegrity(db: Db, username: string, status: UserStatus)
    requires Integrity(db) && status != Unset
    ensures Integrity(SetUserStatus(db, username, status).db)
  {}

  /** Rows may leave the tables as long as no surviving route loses its owner. */
  lemma ShrinkingKeepsIntegrity(db: Db, less: Db)
    requires Integrity(db) && OwnedRoutes(less)
    requires less.backups == db.backups && less.admins == db.admins
    requires forall k :: k in less.users ==> k in db.users && less.users[k] == db.users[k]
    requires forall k :: k in less.routes ==> k in db.routes && less.routes[k] == db.routes[k]
    ensures Integrity(less)
  {}

  /** Rows may change as long as key, owner and hostname stay. */
  lemma RewritingRoutesKeepsIntegrity(db: Db, next: Db)
    requires Integrity(db)
    requires next.users == db.users && next.backups == db.backups && next.admins == db.admins
    requires next.routes.Keys == db.routes.Keys
    requires forall k :: k in db.routes ==>
      && next.routes[k].id == db.routes[k].id
      && next.routes[k].username == db.routes[k].username
      && next.routes[k].hostname == db.routes[k].hostname
    ensures Integrity(next)
  {
    assert PrimaryKeys(next) by {
      forall k | k in next.routes ensures next.routes[k].id == k { assert k in db.routes; }
    }
    assert OwnedRoutes(next) by {
      forall k | k in next.routes ensures next.routes[k].username in next.users { assert k in db.routes; }
    }
    assert UniqueHostnames(next.routes) by {
      forall a, b | a in next.routes && b in next.routes && a != b
        ensures next.routes[a].hostname != next.routes[b].hostname
      {
        assert a in db.routes && b in db.routes;
      }
    }
  }

  function ExecuteAll(db: Db, history: seq<Statement>): Db
    decreases |history|
  {
    if history == [] then db else ExecuteAll(Execute(db, history[0]).db, history[1..])
  }

  /** Unique ports, unique hostnames, owned routes and a single admin hold after any history. */
  lemma {:induction false} HistoryKeepsIntegrity(db: Db, history: seq<Statement>)
    requires Integrity(db)
    ensures Integrity(ExecuteAll(db, history))
    decreases |history|
  {
    if history != [] {
      StatementKeepsIntegrity(db, history[0]);
      HistoryKeepsIntegrity(Execute(db, history[0]).db, history[1..]);
    }
  }

  // ----- Listings -----

  /** `rows` lists the table, each row once. */
  predicate Lists(rows: seq<Route>, table: map<string, Route>) {
    && (forall i :: 0 <= i < |rows| ==> rows[i].id in table && table[rows[i].id] == rows[i])
    && (forall id :: id in table ==> table[id] in rows)
    && (forall i, j :: 0 <= i < j < |rows| ==> rows[i].id != rows[j].id)
  }

  predicate Ascending(keys: seq<string>) {
    forall i, j :: 0 <= i < j < |keys| ==> Less(keys[i], keys[j])
  }

  predicate IsFirst(keys: set<string>, k: string) {
    k in keys && forall x :: x in keys && x != k ==> Less(k, x)
  }

  lemma {:induction false} FirstExists(keys: set<string>)
    requires keys != {}
    ensures exists k :: IsFirst(keys, k)
    decreases |keys|
  {
    hide Less;
    var a :| a in keys;
    var rest := keys - {a};
    if rest == {} {
      assert keys == {a};
      assert IsFirst(keys, a);
    } else {
      FirstExists(rest);
      var b :| IsFirst(rest, b);
      LessTotal(a, b);
      if Less(a, b) {
        forall x | x in rest ensures Less(a, x) { if x != b { LessTransitive(a, b, x); } }
        assert IsFirst(keys, a);
      } else {
        assert IsFirst(keys, b);
      }
    }
  }

  /** The order of listed routes: by user, kind, plugin and hostname. */
  predicate AtMost(a: Route, b: Route) {
    if a.username != b.username then Less(a.username, b.username)
    else if a.kind != b.kind then a.kind == Gateway
    else if a.pluginId != b.pluginId then Less(a.pluginId, b.pluginId)
    else a.hostname == b.hostname || Less(a.hostname, b.hostname)
  }

  lemma AtMostTotal(a: Route, b: Route)
    ensures AtMost(a, b) || AtMost(b, a)
  {
    hide Less;
    LessTotal(a.username, b.username);
    LessTotal(a.pluginId, b.pluginId);
    LessTotal(a.hostname, b.hostname);
  }

  lemma LessChain(a: string, b: string, c: string)
    requires (a == b || Less(a, b)) && (b == c || Less(b, c))
    ensures a == c || Less(a, c)
    ensures a == c ==> a == b
  {
    if Less(a, b) && Less(b, c) {
      LessTransitive(a, b, c);
      if a == c { LessIrreflexive(a); }
    }
    if Less(a, b) && a == c { LessAsymmetric(a, b); }
    hide Less;
  }

  lemma AtMostTransitive(a: Route, b: Route, c: Route)
    requires AtMost(a, b) && AtMost(b, c)
    ensures AtMost(a, c)
  {
    hide Less;
    LessChain(a.username, b.username, c.username);
    if a.username == c.username && a.kind == c.kind {
      LessChain(a.pluginId, b.pluginId, c.pluginId);
      if a.pluginId == c.pluginId { LessChain(a.hostname, b.hostname, c.hostname); }
    }
  }

  predicate IsLeast(routes: map<string, Route>, keys: set<string>, k: string)
    requires keys <= routes.Keys
  {
    k in keys && forall x :: x in keys ==> AtMost(routes[k], routes[x])
  }

  lemma {:induction false} LeastRowExists(routes: map<string, Route>, keys: set<string>)
    requires keys != {} && keys <= routes.Keys
    ensures exists k :: IsLeast(routes, keys, k)
    decreases |keys|
  {
    hide AtMost;
    var a :| a in keys;
    var rest := keys - {a};
    AtMostTotal(routes[a], routes[a]);
    if rest == {} {
      assert keys == {a};
      assert IsLeast(routes, keys, a);
    } else {
      LeastRowExists(routes, rest);
      var b :| IsLeast(routes, rest, b);
      AtMostTotal(routes[a], routes[b]);
      if AtMost(routes[a], routes[b]) {
        forall x | x in rest ensures AtMost(routes[a], routes[x]) { AtMostTransitive(routes[a], routes[b], routes[x]); }
        assert IsLeast(routes, keys, a);
      } else {
        assert IsLeast(routes, keys, b);
      }
    }
  }

  /** No row comes after a later one. */
  predicate InListOrder(rows: seq<Route>) {
    forall i, j :: 0 <= i < j < |rows| ==> AtMost(rows[i], rows[j])
  }

  // ----- The store object -----

  class Store {
    var users: map<string, User>
    var routes: map<string, Route>
    var backups: map<string, Backup>
    var admins: map<string, Admin>

    ghost function View(): Db
      reads this
    {
      Db(users, routes, backups, admins)
    }

    constructor ()
      ensures View() == EMPTY
    {
      users, routes, backups, admins := map[], map[], map[], map[];
    }

    method GetUser(username: string) returns (r: Result<User, StoreError>)
      ensures r.Ok? <==> username in users
      ensures r == if username in users then Ok(users[username]) else Err(NoUser)
    {
      r := if username in users then Ok(users[username]) else Err(NoUser);
    }

    /** All users, each once, in the order of their keys. */
    method ListUsers() returns (rows: seq<User>, ghost keys: seq<string>)
      ensures (set u | u in rows) == users.Values
      ensures |rows| == |keys| && (forall i :: 0 <= i < |keys| ==> keys[i] in users && rows[i] == users[keys[i]])
      ensures (forall k :: k in users ==> k in keys) && Ascending(keys)
    {
      hide Less;
      rows, keys := [], [];
      var todo := users.Keys;
      while todo != {}
        invariant todo <= users.Keys
        invariant |rows| == |keys| && forall i :: 0 <= i < |keys| ==> keys[i] in users && rows[i] == users[keys[i]]
        invariant forall k :: k in users && k !in todo ==> k in keys
        invariant Ascending(keys) && forall i, k :: 0 <= i < |keys| && k in todo ==> Less(keys[i], k)
        decreases |todo|
      {
        FirstExists(todo);
        var k :| IsFirst(todo, k);
        rows, keys := rows + [users[k]], keys + [k];
        todo := todo - {k};
      }
      forall u | u in users.Values ensures u in rows {
        var k :| k in users && users[k] == u;
        assert k in keys;
      }
    }

    method UpsertUser(u: User) returns (err: Option<StoreError>)
      modifies this
      ensures Outcome(View(), err) == PutUser(old(View()), u)
    {
      if u.port != 0 && exists k | k in users :: k != u.username && users[k].port == u.port {
        return Some(Constraint);
      }
      var row := u;
      if row.status == Unset { row := row.(status := Active); }
      users := users[u.username := row];
      err := None;
    }

    method RemoveUser(username: string) returns (err: Option<StoreError>)
      modifies this
      ensures Outcome(View(), err) == DeleteUser(old(View()), username)
    {
      if username !in users { return Some(NoUser); }
      users := users - {username};
      // ON DELETE CASCADE; the backups table has no foreign key
      routes := map id | id in routes && routes[id].username != username :: routes[id];
      err := None;
    }

    method UpsertRoute(r: Route) returns (err: Option<StoreError>)
      modifies this
      ensures Outcome(View(), err) == PutRoute(old(View()), r)
    {
      if r.username !in users { return Some(Constraint); }
      if exists k | k in routes :: k != r.id && routes[k].hostname == r.hostname { return Some(Constraint); }
      routes := routes[r.id := r];
      err := None;
    }

    method RemoveRoute(id: string) returns (err: Option<StoreError>)
      modifies this
      ensures Outcome(View(), err) == DeleteRoute(old(View()), id)
    {
      if id !in routes { return Some(NoRoute); }
      routes := routes - {id};
      err := None;
    }

    method RemoveRoutesByUser(username: string) returns (err: Option<StoreError>)
      modifies this
      ensures Outcome(View(), err) == DeleteRoutesByUser(old(View()), username)
    {
      routes := map id | id in routes && routes[id].username != username :: routes[id];
      err := None;
    }

    method EnableRoutes(username: string, enabled: bool) returns (err: Option<StoreError>)
      modifies this
      ensures Outcome(View(), err) == SetRoutesEnabled(old(View()), username, enabled)
    {
      routes := map id | id in routes ::
        if routes[id].username == username then routes[id].(enabled := enabled) else routes[id];
      err := None;
    }

    method UpsertBackup(b: Backup) returns (err: Option<StoreError>)
      modifies this
      ensures Outcome(View(), err) == PutBackup(old(View()), b)
    {
      backups := backups[b.id := b];
      err := None;
    }

    method PutAdmin(a: Admin) returns (err: Option<StoreError>)
      modifies this
      ensures Outcome(View(), err) == SetAdmin(old(View()), a)
    {
      admins := map[];
      admins := admins[a.username := a];
      err := None;
    }

    /** All routes, in the order of user, kind, plugin and hostname. */
    method ListRoutes() returns (rows: seq<Route>)
      requires PrimaryKeys(View())
      ensures Lists(rows, routes) && InListOrder(rows)
    {
      hide AtMost;
      rows := [];
      var todo := routes.Keys;
      while todo != {}
        invariant todo <= routes.Keys && InListOrder(rows)
        invariant forall i :: 0 <= i < |rows| ==>
          rows[i].id in routes && rows[i].id !in todo && routes[rows[i].id] == rows[i]
        invariant forall id :: id in routes ==> id in todo || routes[id] in rows
        invariant forall i, j :: 0 <= i < j < |rows| ==> rows[i].id != rows[j].id
        invariant forall i, id :: 0 <= i < |rows| && id in todo ==> AtMost(rows[i], routes[id])
        decreases |todo|
      {
        LeastRowExists(routes, todo);
        var id :| IsLeast(routes, todo, id);
        rows := rows + [routes[id]];
        todo := todo - {id};
      }
    }
  }
}
