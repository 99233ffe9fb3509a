/** Concrete runs of the watcher: the hypotheses of the theorems about it can be met, and each way in
    which the table can fall out of step does occur. */
module Examples {
  import opened Text
  import opened State
  import opened Identity
  import opened Callbacks
  import opened Watcher
  import opened Reconcile
  import opened Readiness
  import opened Retry
  import opened Drift
  import opened Feedback
  import Api

  const CONFIG := Some(OverlayConfig("example.com", "ui", "t", "/c.json", 18789, 20))

  const ONE_USER := Db(map["alice" := User("alice", 1000, 18789, Active, true, "")], map[], map[], map[])

  /** A user for whom nothing was synchronised yet; each turn brings its own configuration. */
  const START := World(ONE_USER, map[], map[])

  const SMOOTH_ORACLE := Oracle(true, [], [], true)

  function CallbackAt(hint: string): CallbackRoute { CallbackRoute("cal", hint, 19000, "u", "p") }

  function Only(c: CallbackRoute): CallbackMap { map[KeyOf(c) := c] }

  // ----- Configurations -----

  /** The entry of a plugin that asks for the callback. */
  function EntryFor(c: CallbackRoute): PluginEntry {
    PluginEntry(map[], Callback(c.localPort, 0, c.hostnameHint, c.urlKey, c.portKey))
  }

  function Asking(c: CallbackRoute): Entries { map[c.pluginId := EntryFor(c)] }

  function AskingBoth(c: CallbackRoute, d: CallbackRoute): Entries {
    map[c.pluginId := EntryFor(c), d.pluginId := EntryFor(d)]
  }

  /** What discovery reads from the entry is the callback. */
  predicate Plain(c: CallbackRoute) {
    && 1 <= c.localPort <= 65535
    && c.hostnameHint != "" && CleanEdges(c.hostnameHint, IsSpace)
    && c.urlKey == "u" && c.portKey == "p"
  }

  lemma PlainIsRead(c: CallbackRoute)
    requires Plain(c)
    ensures CallbackOf(c.pluginId, EntryFor(c)) == Ok(Some(c))
  {
    TrimKeepsClean(c.hostnameHint, IsSpace);
    TrimKeepsClean("u", IsSpace);
    TrimKeepsClean("p", IsSpace);
    hide Trim, DefaultKey;
  }

  /** The turn is about the callbacks that discovery finds in its configuration. */
  predicate Discovered(t: Turn) { !Broken(t.entries) && IsCurrent(t.current, t.entries) }

  lemma AllAreWanted(entries: Entries, wanted: CallbackMap)
    requires entries.Keys == wanted.Keys
    requires forall p :: p in entries ==> CallbackOf(p, entries[p]) == Ok(Some(wanted[p]))
    ensures !Broken(entries) && Wanted(entries) == wanted
  {
    hide CallbackOf;
  }

  lemma OnlyIsDiscovered(c: CallbackRoute)
    requires Plain(c)
    ensures !Broken(Asking(c)) && IsCurrent(Only(c), Asking(c))
  {
    PlainIsRead(c);
    hide CallbackOf, KeyOf, EntryFor, Plain, Wanted, Broken;
    AllAreWanted(Asking(c), map[c.pluginId := c]);
  }

  lemma BothAreWanted(c: CallbackRoute, d: CallbackRoute)
    requires Plain(c) && Plain(d) && c.pluginId != d.pluginId
    ensures !Broken(AskingBoth(c, d)) && Wanted(AskingBoth(c, d)) == map[c.pluginId := c, d.pluginId := d]
  {
    PlainIsRead(c);
    PlainIsRead(d);
    hide CallbackOf, EntryFor, Plain, Wanted, Broken;
    AllAreWanted(AskingBoth(c, d), map[c.pluginId := c, d.pluginId := d]);
  }

  lemma BothAreDiscovered(c: CallbackRoute, d: CallbackRoute)
    requires Plain(c) && Plain(d) && c.pluginId != d.pluginId && KeyOf(c) != KeyOf(d)
    ensures !Broken(AskingBoth(c, d)) && IsCurrent(Both(c, d), AskingBoth(c, d))
  {
    hide KeyOf, AskingBoth, Plain, Wanted, Broken;
    BothAreWanted(c, d);
  }

  /** One callback wanted. */
  function Ask(c: CallbackRoute, removedKeys: seq<string>, staleKeys: seq<string>, o: Oracle): Turn {
    Turn(Asking(c), Only(c), removedKeys, staleKeys, o)
  }

  /** Two callbacks wanted. */
  function AskBoth(c: CallbackRoute, d: CallbackRoute, staleKeys: seq<string>, o: Oracle): Turn {
    Turn(AskingBoth(c, d), Both(c, d), [], staleKeys, o)
  }

  // ----- One user and one callback -----

  lemma OneUserIsHome()
    ensures HasDomain(CONFIG) && Home(CONFIG, "alice", ONE_USER)
  {
    AliceIsValid();
    TrimKeepsClean("example.com", IsSpace);
    TrimKeepsClean("ui", IsSpace);
    hide ValidUsername, Slug;
    assert Integrity(ONE_USER);
  }

  lemma AliceIsValid()
    ensures ValidUsername("alice")
  {
    assert |"alice"| == 5;
    assert forall i :: 0 <= i < 5 ==> UsernameChar("alice"[i]);
  }

  lemma OnlyFacts(c: CallbackRoute)
    requires Without(c.pluginId, NUL)
    ensures Keyed(Only(c)) && NoneShared("alice", Only(c))
  {
    hide KeyOf, WantedId;
  }

  /** Beside rows of the user alone, one callback can be served. */
  lemma OnlyIsServable(db: Db, snap: Snapshot, c: CallbackRoute)
    requires Publishable(c) && forall x :: x in db.routes ==> Mine("alice", db.routes[x])
    ensures Servable("alice", db, snap, Only(c))
  {
    hide KeyOf, WantedId, Slug, Mine, Publishable;
  }

  lemma KeysDiffer(a: string, b: string)
    requires a != b
    ensures KeyOf(CallbackAt(a)) != KeyOf(CallbackAt(b))
  {
    assert KeyOf(CallbackAt(a))[4..] == a && KeyOf(CallbackAt(b))[4..] == b;
  }

  lemma SingleListing(k: string)
    ensures Enumerates([k], {k}) && Enumerates([], {})
  {
    assert [k][0] == k;
  }

  lemma FirstKeys(c: CallbackRoute)
    ensures RemovedKeys(map[], Only(c)) == {} && StaleKeys(map[], Only(c)) == {KeyOf(c)}
  {
    hide KeyOf;
  }

  lemma FirstOrders(c: CallbackRoute)
    ensures Orders(map[], Only(c), [], [KeyOf(c)])
  {
    hide KeyOf, Only, RemovedKeys, StaleKeys;
    FirstKeys(c);
    SingleListing(KeyOf(c));
  }

  /** A user without plugin rows and without a saved snapshot. */
  lemma FirstStartMirrors(cfg: MaybeConfig, username: string, db: Db)
    requires HasDomain(cfg) && db.routes == map[]
    ensures Mirrors(cfg, username, db, map[]) && AllApart(map[])
  {}

  lemma FirstStartIsReady(current: CallbackMap)
    requires Keyed(current) && Servable("alice", ONE_USER, map[], current)
    ensures HasDomain(CONFIG) && Home(CONFIG, "alice", ONE_USER) && Tracked(CONFIG, "alice", map[])
    ensures Ready("alice", ONE_USER, map[], current)
  {
    hide Home, Keyed, Servable, HasDomain, Ready;
    OneUserIsHome();
    FirstStartMirrors(CONFIG, "alice", ONE_USER);
    MirrorIsReady(CONFIG, "alice", ONE_USER, map[], current);
  }

  /** The state after publishing one callback. */
  predicate PublishedOnly(w: World, c: CallbackRoute) {
    && HasDomain(CONFIG) && Home(CONFIG, "alice", w.db) && w.snap == SnapshotOf(CONFIG, "alice", Only(c))
    && InStep("alice", w.db, Only(c)) && forall x :: x in w.db.routes ==> x == WantedId("alice", c)
  }

  lemma OnlyRow(a: Db, b: Db, c: CallbackRoute)
    requires OthersSame("alice", a, b) && InStep("alice", b, Only(c))
    requires forall x :: x in a.routes ==> Mine("alice", a.routes[x])
    ensures forall x :: x in b.routes ==> x == WantedId("alice", c)
  {
    hide KeyOf, WantedId, Mine, PortServed;
    forall x | x in b.routes ensures x == WantedId("alice", c) { assert OtherSame("alice", a, b, x); }
  }

  /** The first synchronisation of a user with one callback. */
  lemma PublishedStarts(c: CallbackRoute)
    requires Without(c.pluginId, NUL) && Publishable(c) && Plain(c)
    ensures var t := Ask(c, [], [KeyOf(c)], SMOOTH_ORACLE);
      && Discovered(t) && InOrder(START.snap, t)
      && PublishedOnly(TakeTurn(CONFIG, "alice", START, t).world, c)
  {
    hide Home, Mirrors, Keyed, KeyOf, SyncInOrder, HasDomain, SnapshotOf, Orders, Only, Servable, InStep, Ready,
         OthersSame, Publishable, NoneShared, Tracked, AllApart, Plain, Broken, IsCurrent, Asking;
    OnlyIsDiscovered(c);
    FirstOrders(c);
    OnlyFacts(c);
    OnlyIsServable(ONE_USER, map[], c);
    FirstStartIsReady(Only(c));
    var w := START.(entries := Asking(c));
    SyncReconciles(CONFIG, "alice", w, Only(c), [], [KeyOf(c)], SMOOTH_ORACLE);
    SyncKeepsHome(CONFIG, "alice", w, Only(c), [], [KeyOf(c)], SMOOTH_ORACLE);
    OnlyRow(ONE_USER, SyncInOrder(CONFIG, "alice", w, Only(c), [], [KeyOf(c)], SMOOTH_ORACLE).world.db, c);
  }

  lemma PublishedFacts(w: World, c: CallbackRoute)
    requires PublishedOnly(w, c) && Without(c.pluginId, NUL)
    ensures Mirrors(CONFIG, "alice", w.db, w.snap) && AllApart(w.snap) && Tracked(CONFIG, "alice", w.snap)
    ensures forall x :: x in w.db.routes ==> Mine("alice", w.db.routes[x])
  {
    hide Home, KeyOf, HasDomain, WantedId, WantedRow, SnapshotOf, InStep, NoneShared, Keyed, Tracked, Mine, Only;
    OnlyFacts(c);
    InStepMirrors(CONFIG, "alice", w.db, Only(c));
    forall x | x in w.db.routes ensures Mine("alice", w.db.routes[x]) { WantedIdIsMine(CONFIG, "alice", w.db, c); }
  }

  lemma ExchangedKeys(snap: Snapshot, c: CallbackRoute, k: string)
    requires snap.Keys == {k} && k != KeyOf(c)
    ensures RemovedKeys(snap, Only(c)) == {k} && StaleKeys(snap, Only(c)) == {KeyOf(c)}
  {
    hide KeyOf;
  }

  lemma ExchangedOrders(w: World, k: string, c: CallbackRoute)
    requires w.snap.Keys == {k} && k != KeyOf(c)
    ensures Orders(w.snap, Only(c), [k], [KeyOf(c)])
  {
    hide KeyOf, Only, RemovedKeys, StaleKeys;
    ExchangedKeys(w.snap, c, k);
    SingleListing(k);
    SingleListing(KeyOf(c));
  }

  lemma SavedOne(c: CallbackRoute)
    requires HasDomain(CONFIG)
    ensures SnapshotOf(CONFIG, "alice", Only(c)) == map[KeyOf(c) := PublishedEntry(c, WantedRow(CONFIG, "alice", c))]
  {
    hide KeyOf, HasDomain, WantedRow, PublishedEntry;
  }

  lemma SavedEntry(w: World, c: CallbackRoute)
    requires PublishedOnly(w, c)
    ensures w.snap.Keys == {KeyOf(c)} && w.snap[KeyOf(c)].localPort == c.localPort
    ensures w.snap[KeyOf(c)].routeId == WantedId("alice", c)
  {
    hide KeyOf, Home, HasDomain, WantedRow, WantedId, SnapshotOf, Only, InStep;
    SavedOne(c);
    WantedRowShape(CONFIG, "alice", c);
  }

  /** A ready start. */
  predicate IsStart(cfg: MaybeConfig, username: string, w: World, current: CallbackMap) {
    && Home(cfg, username, w.db) && Tracked(cfg, username, w.snap) && Keyed(current)
    && Ready(username, w.db, w.snap, current)
  }

  lemma ExchangeStarts(w: World, a: CallbackRoute, b: CallbackRoute)
    requires PublishedOnly(w, a) && Without(a.pluginId, NUL)
    requires Without(b.pluginId, NUL) && Publishable(b)
    ensures IsStart(CONFIG, "alice", w, Only(b))
  {
    hide Home, Mirrors, Keyed, KeyOf, Only, HasDomain, Ready, Servable, Tracked, AllApart, NoneShared, WantedId,
         Mine, InStep, SnapshotOf, Publishable;
    PublishedFacts(w, a);
    OnlyFacts(b);
    OnlyIsServable(w.db, w.snap, b);
    MirrorIsReady(CONFIG, "alice", w.db, w.snap, Only(b));
  }

  /** There are ready starts with a route to delete and one to publish: the state after publishing one
      callback, when another one is wanted instead. */
  lemma StartsExist()
    ensures exists cfg: MaybeConfig, username: string, w: World, t: Turn ::
      && IsStart(cfg, username, w, t.current) && Discovered(t) && InOrder(w.snap, t)
      && t.removedKeys != [] && t.staleKeys != []
  {
    hide KeyOf, TakeTurn, Orders, CallbackAt, Only, IsStart, PublishedOnly, Publishable, Plain, Broken, IsCurrent,
         Asking;
    var a, b := CallbackAt("oauth"), CallbackAt("mail");
    TwoCallbacks();
    PublishedStarts(a);
    OnlyIsDiscovered(b);
    var w := TakeTurn(CONFIG, "alice", START, Ask(a, [], [KeyOf(a)], SMOOTH_ORACLE)).world;
    SavedEntry(w, a);
    ExchangeStarts(w, a, b);
    ExchangedOrders(w, KeyOf(a), b);
    var t := Ask(b, [KeyOf(a)], [KeyOf(b)], SMOOTH_ORACLE);
    assert IsStart(CONFIG, "alice", w, t.current) && Discovered(t) && InOrder(w.snap, t);
  }

  lemma TwoCallbacks()
    ensures Publishable(CallbackAt("oauth")) && Publishable(CallbackAt("mail"))
    ensures Without(CallbackAt("oauth").pluginId, NUL) && Without(CallbackAt("mail").pluginId, NUL)
    ensures Plain(CallbackAt("oauth")) && Plain(CallbackAt("mail"))
    ensures KeyOf(CallbackAt("oauth")) != KeyOf(CallbackAt("mail"))
  {
    hide Slug, KeyOf;
    assert "oauth"[0] != "mail"[0];
    KeysDiffer("oauth", "mail");
    Slugs();
  }

  lemma Slugs()
    ensures Slug("oauth") == "oauth" && Slug("login") == "login" && Slug("cal") == "cal" && Slug("mail") == "mail"
    ensures "oauth" != "login" && "cal" != "mail" && Without("cal", NUL)
  {
    hide Slug;
    SlugKeepsSlugs("oauth");
    SlugKeepsSlugs("login");
    SlugKeepsSlugs("cal");
    SlugKeepsSlugs("mail");
    assert "oauth"[0] != "login"[0] && |"cal"| != |"mail"|;
  }

  // ----- Ways to fall out of step -----

  /** The reply to the first publication is lost after the service committed it. */
  const LOST_REPLY := Oracle(true, [], [UpsertFault(AfterCommit, Written, false)], true)

  /** The first publication fails before the service changed anything. */
  const NO_SERVICE := Oracle(true, [], [UpsertFault(BeforeCommit, Written, false)], true)

  lemma IdsApart(a: CallbackRoute, b: CallbackRoute)
    requires Slug(a.hostnameHint) != Slug(b.hostnameHint) || Slug(a.pluginId) != Slug(b.pluginId)
    ensures WantedId("alice", a) != WantedId("alice", b)
    ensures !IsWanted("alice", Only(b), WantedId("alice", a))
  {
    AliceIsValid();
    hide ValidUsername, Slug, WantedId;
    SharedRoute("alice", a, b);
  }

  /** One wanted callback, whose publication commits and then fails. */
  lemma CommittedOnly(w: World, c: CallbackRoute)
    requires Home(CONFIG, "alice", w.db) && HasDomain(CONFIG) && Publishable(c)
    requires forall x :: x in w.db.routes ==> x == WantedId("alice", c)
    requires Orders(w.snap, Only(c), [], [KeyOf(c)])
    ensures SyncInOrder(CONFIG, "alice", w, Only(c), [], [KeyOf(c)], LOST_REPLY)
      == Stage(w.(db := WithRoute(w.db, WantedRow(CONFIG, "alice", c))), false)
  {
    hide Home, KeyOf, WantedRow, Orders, HasDomain, Publishable, WantedId;
    NothingHolds(w.db, c);
    WantedIsAccepted(CONFIG, "alice", w.db, c, NoFault);
    UpsertTouches(CONFIG, "alice", w.db, c, NoFault, "");
    LostReply(CONFIG, "alice", w.db, c);
    hide RemoteUpsert;
    assert Pick(Only(c), [KeyOf(c)]) == [c] && Pick(w.snap, []) == [];
    assert DeleteLoop(CONFIG, "alice", w, [], []) == Stage(w, true);
  }

  lemma NothingHolds(db: Db, c: CallbackRoute)
    requires forall x :: x in db.routes ==> x == WantedId("alice", c)
    ensures !Held("alice", db, c)
  {
    hide WantedId, Slug, Api.HoldsHint;
  }

  lemma LostReply(cfg: MaybeConfig, username: string, db: Db, c: CallbackRoute)
    ensures RemoteUpsert(cfg, username, db, c, AfterCommit)
      == Reply(RemoteUpsert(cfg, username, db, c, NoFault).db, None)
  {}

  /** The plugin asks for the hint `oauth`; the route is committed and the reply lost; then the plugin
      asks for the hint `login` instead. The first route is an orphan: it stays enabled, no
      configuration but the first one ever removes or updates it, the start is not ready, and
      another plugin that asks for `oauth` is blocked. */
  lemma ChangedHintLeavesAnOrphan()
    ensures var a, b := CallbackAt("oauth"), CallbackAt("login");
      var other := CallbackRoute("mail", "oauth", 19002, "u", "p");
      var t := Ask(a, [], [KeyOf(a)], LOST_REPLY);
      && HasDomain(CONFIG) && Discovered(t) && InOrder(START.snap, t)
      && IsCurrent(Only(b), Asking(b)) && IsCurrent(Only(other), Asking(other))
      && var s := TakeTurn(CONFIG, "alice", START, t);
      && !s.ok && Orphan("alice", s.world.db, s.world.snap, WantedId("alice", a))
      && s.world.db.routes[WantedId("alice", a)].enabled
      && !IsWanted("alice", Only(b), WantedId("alice", a))
      && !Ready("alice", s.world.db, s.world.snap, Only(b))
      && Blocked("alice", s.world.db, s.world.snap, Only(other), KeyOf(other), WantedId("alice", a))
  {
    var a, b, other := CallbackAt("oauth"), CallbackAt("login"), CallbackRoute("mail", "oauth", 19002, "u", "p");
    hide Home, Slug, SyncInOrder, Orders, Only, KeyOf, WantedId, Orphan, Blocked, Ready, HasDomain, IsWanted,
         ValidUsername, WantedRow, Broken, IsCurrent, Asking;
    OneUserIsHome();
    OnlyIsDiscovered(a);
    OnlyIsDiscovered(b);
    OnlyIsDiscovered(other);
    FirstOrders(a);
    Slugs();
    IdsApart(a, b);
    IdsApart(a, other);
    CommittedOnly(START.(entries := Asking(a)), a);
    OrphanFacts(a, b, other);
  }

  lemma OrphanFacts(a: CallbackRoute, b: CallbackRoute, other: CallbackRoute)
    requires HasDomain(CONFIG) && !IsWanted("alice", Only(b), WantedId("alice", a))
    requires WantedId("alice", a) != WantedId("alice", other) && Slug(other.hostnameHint) == Slug(a.hostnameHint)
    ensures var db := WithRoute(ONE_USER, WantedRow(CONFIG, "alice", a));
      && Orphan("alice", db, map[], WantedId("alice", a)) && db.routes[WantedId("alice", a)].enabled
      && !Ready("alice", db, map[], Only(b))
      && Blocked("alice", db, map[], Only(other), KeyOf(other), WantedId("alice", a))
  {
    WantedRowShape(CONFIG, "alice", a);
    FirstKeys(other);
    AliceIsValid();
    WantedIdDecodes("alice", a);
    var db := WithRoute(ONE_USER, WantedRow(CONFIG, "alice", a));
    var id := WantedId("alice", a);
    assert db.routes[id] == WantedRow(CONFIG, "alice", a);
    hide Slug, DecodeRouteId, KeyOf, WantedId, HasDomain, ValidUsername;
    assert !IsRemoved(map[], Only(b), id) && !IsRemoved(map[], Only(other), id);
    assert !Covered("alice", db, map[], Only(b));
  }

  /** A synchronisation with nothing to delete and nothing to publish succeeds and changes nothing. */
  lemma NothingToDo(cfg: MaybeConfig, username: string, w: World, current: CallbackMap)
    requires StaleKeys(w.snap, current) == {} == RemovedKeys(w.snap, current)
    ensures Orders(w.snap, current, [], [])
    ensures SyncInOrder(cfg, username, w, current, [], [], SMOOTH_ORACLE) == Stage(w, true)
  {}

  /** The callback on another port. */
  function Moved(): CallbackRoute { CallbackAt("oauth").(localPort := 19001) }

  lemma MovedFacts()
    ensures KeyOf(Moved()) == KeyOf(CallbackAt("oauth")) && Publishable(Moved()) && Plain(Moved())
    ensures CallbackAt("oauth").localPort == 19000 && Moved().localPort == 19001
    ensures WantedId("alice", Moved()) == WantedId("alice", CallbackAt("oauth"))
  {
    hide Slug;
    Slugs();
  }

  /** One entry, of the wanted key but with another port: one publication. */
  lemma MovedOrders(w: World, c: CallbackRoute)
    requires w.snap.Keys == {KeyOf(c)} && w.snap[KeyOf(c)].localPort != c.localPort
    ensures Orders(w.snap, Only(c), [], [KeyOf(c)])
  {
    hide KeyOf, Enumerates;
    assert RemovedKeys(w.snap, Only(c)) == {} && StaleKeys(w.snap, Only(c)) == {KeyOf(c)};
    SingleListing(KeyOf(c));
  }

  /** After a publication the plugin moves to another port; the update is committed and the reply lost;
      then it moves back. The snapshot still shows the first port, so the synchronisation reports
      success and changes nothing, while the table serves the port nobody uses any more. */
  lemma MovedBackServesTheWrongPort(w: World)
    requires PublishedOnly(w, CallbackAt("oauth"))
    ensures var a, moved := CallbackAt("oauth"), Moved();
      var t, back := Ask(moved, [], [KeyOf(moved)], LOST_REPLY), Ask(a, [], [], SMOOTH_ORACLE);
      && Discovered(t) && InOrder(w.snap, t) && Discovered(back)
      && var s := TakeTurn(CONFIG, "alice", w, t);
      && !s.ok && InOrder(s.world.snap, back)
      && TakeTurn(CONFIG, "alice", s.world, back) == Stage(s.world.(entries := back.entries), true)
      && !PortServed("alice", s.world.db, a)
  {
    var a, moved := CallbackAt("oauth"), Moved();
    TwoCallbacks();
    MovedFacts();
    hide Home, KeyOf, HasDomain, Orders, WantedRow, SyncInOrder, Only, CallbackAt, Moved, SnapshotOf, WantedId,
         Publishable, InStep, StaleKeys, RemovedKeys, Plain, Broken, IsCurrent, Asking;
    OnlyIsDiscovered(a);
    OnlyIsDiscovered(moved);
    SavedEntry(w, a);
    MovedOrders(w, moved);
    CommittedOnly(w.(entries := Asking(moved)), moved);
    NothingStale(CONFIG, "alice", Only(a));
    var s := TakeTurn(CONFIG, "alice", w, Ask(moved, [], [KeyOf(moved)], LOST_REPLY));
    assert s.world.snap == w.snap;
    NothingToDo(CONFIG, "alice", s.world.(entries := Asking(a)), Only(a));
    MovedRow(w.db, a, moved);
  }

  lemma MovedRow(db: Db, a: CallbackRoute, moved: CallbackRoute)
    requires HasDomain(CONFIG) && WantedId("alice", moved) == WantedId("alice", a) && moved.localPort != a.localPort
    ensures !PortServed("alice", WithRoute(db, WantedRow(CONFIG, "alice", moved)), a)
  {
    WantedRowShape(CONFIG, "alice", moved);
    hide HasDomain, Slug;
  }

  /** After a publication the plugin asks for the hint `mail` instead; the old route is deleted and the
      new one cannot be published; then the plugin asks for `oauth` again. The snapshot still shows
      the deleted route, so the synchronisation reports success and changes nothing, while the
      wanted route is not in the table. */
  lemma RevertedHintStaysMissing(w: World)
    requires PublishedOnly(w, CallbackAt("oauth"))
    ensures var a, b := CallbackAt("oauth"), CallbackAt("mail");
      var t, back := Ask(b, [KeyOf(a)], [KeyOf(b)], NO_SERVICE), Ask(a, [], [], SMOOTH_ORACLE);
      && Discovered(t) && InOrder(w.snap, t) && Discovered(back)
      && var s := TakeTurn(CONFIG, "alice", w, t);
      && !s.ok && InOrder(s.world.snap, back)
      && TakeTurn(CONFIG, "alice", s.world, back) == Stage(s.world.(entries := back.entries), true)
      && WantedId("alice", a) !in s.world.db.routes
  {
    var a, b := CallbackAt("oauth"), CallbackAt("mail");
    hide Home, Mirrors, KeyOf, HasDomain, Orders, SyncInOrder, Only, CallbackAt, SnapshotOf, WantedId, InStep,
         StaleKeys, Tracked, AllApart, Mine, Publishable, Plain, Broken, IsCurrent, Asking;
    TwoCallbacks();
    OnlyIsDiscovered(a);
    OnlyIsDiscovered(b);
    PublishedFacts(w, a);
    SavedEntry(w, a);
    ExchangedOrders(w, KeyOf(a), b);
    ExchangedKeys(w.snap, b, KeyOf(a));
    DeletionThenFailureStrands(CONFIG, "alice", w.(entries := Asking(b)), Only(b), [KeyOf(a)], [KeyOf(b)]);
    var s := TakeTurn(CONFIG, "alice", w, Ask(b, [KeyOf(a)], [KeyOf(b)], NO_SERVICE));
    hide RemovedKeys;
    NothingStale(CONFIG, "alice", Only(a));
    NothingToDo(CONFIG, "alice", s.world.(entries := Asking(a)), Only(a));
  }

  // ----- Callbacks that share a route -----

  /** Another plugin whose ID has the same slug. */
  function Twin(port: int): CallbackRoute { CallbackRoute("Cal", "oauth", port, "u", "p") }

  function Both(c: CallbackRoute, d: CallbackRoute): CallbackMap { map[KeyOf(c) := c, KeyOf(d) := d] }

  lemma TwinFacts(port: int)
    requires 1 <= port <= 65535
    ensures var a, b := CallbackAt("oauth"), Twin(port);
      && WantedId("alice", a) == WantedId("alice", b) && KeyOf(a) != KeyOf(b)
      && Publishable(a) && Publishable(b) && Keyed(Both(a, b)) && Without(a.pluginId, NUL)
      && a.localPort == 19000 && b.localPort == port && a.pluginId != b.pluginId && Plain(a) && Plain(b)
  {
    SameLowerSameSlug();
    Slugs();
    hide Slug;
    var a, b := CallbackAt("oauth"), Twin(port);
    assert KeyOf(a)[0] == 'c' && KeyOf(b)[0] == 'C';
    assert Without("Cal", NUL);
    hide KeyOf;
  }

  lemma SameLowerSameSlug()
    ensures Slug("Cal") == Slug("cal")
  {
    TrimKeepsClean("Cal", IsSpace);
    TrimKeepsClean("cal", IsSpace);
    assert Lower("Cal") == Lower("cal");
  }

  lemma TwoListing(k: string, l: string)
    requires k != l
    ensures Enumerates([k, l], {k, l})
  {
    assert [k, l][0] == k && [k, l][1] == l;
  }

  lemma BothKeys(c: CallbackRoute, d: CallbackRoute)
    requires KeyOf(c) != KeyOf(d)
    ensures Orders(map[], Both(c, d), [], [KeyOf(c), KeyOf(d)]) && Orders(map[], Both(c, d), [], [KeyOf(d), KeyOf(c)])
  {
    hide KeyOf, Enumerates;
    TwoListing(KeyOf(c), KeyOf(d));
    TwoListing(KeyOf(d), KeyOf(c));
    SingleListing("");
    assert RemovedKeys(map[], Both(c, d)) == {} && StaleKeys(map[], Both(c, d)) == {KeyOf(c), KeyOf(d)};
    assert {KeyOf(c), KeyOf(d)} == {KeyOf(d), KeyOf(c)};
  }

  lemma NothingObstructs(c: CallbackRoute, d: CallbackRoute)
    requires Publishable(c) && Publishable(d) && WantedId("alice", c) == WantedId("alice", d)
    ensures Unobstructed("alice", ONE_USER, map[], Both(c, d))
  {
    hide KeyOf, Publishable, WantedId, Slug, Stale, Api.HoldsHint, IsRemoved;
    var current := Both(c, d);
    assert RemovedKeys(map[], current) == {};
    forall k, l | k in current && l in current ensures !Clash("alice", current[k], current[l]) {}
  }

  /** The second of two callbacks that share a route overwrites the row of the first. */
  lemma SecondOverwrites(w: World, c: CallbackRoute, d: CallbackRoute)
    requires w.db == ONE_USER && w.snap == map[]
    requires Publishable(c) && Publishable(d) && WantedId("alice", c) == WantedId("alice", d) && KeyOf(c) != KeyOf(d)
    ensures HasDomain(CONFIG) && Orders(map[], Both(c, d), [], [KeyOf(c), KeyOf(d)])
    ensures var s := SyncInOrder(CONFIG, "alice", w, Both(c, d), [], [KeyOf(c), KeyOf(d)], SMOOTH_ORACLE);
      s.ok && s.world.db == WithRoute(ONE_USER, WantedRow(CONFIG, "alice", d))
  {
    hide KeyOf, Publishable, WantedId, WantedRow, HasDomain, Home, UpsertLoop, Unobstructed, SyncInOrder, StaleKeys,
         RemovedKeys, Enumerates;
    OneUserIsHome();
    BothKeys(c, d);
    NothingObstructs(c, d);
    SuccessIsExact(CONFIG, "alice", w, Both(c, d), [], [KeyOf(c), KeyOf(d)], SMOOTH_ORACLE);
    SyncEnds(CONFIG, "alice", w, Both(c, d), [], [KeyOf(c), KeyOf(d)], SMOOTH_ORACLE);
    assert Pick(Both(c, d), [KeyOf(c), KeyOf(d)]) == [c, d] && Pick(w.snap, []) == [];
    assert DeleteLoop(CONFIG, "alice", w, [], []) == Stage(w, true);
    UpsertLoopFiles(CONFIG, "alice", w, [c, d], []);
    TwoRows(ONE_USER, c, d);
  }

  lemma Overwritten(k: string, x: Route, y: Route, rest: map<string, Route>)
    requires rest == map[]
    ensures map[k := x] + (map[k := y] + rest) == map[k := y]
  {}

  lemma PutOne(db: Db, row: Route)
    ensures db.(routes := db.routes + map[row.id := row]) == WithRoute(db, row)
  {}

  lemma RowsOfTwo(c: CallbackRoute, d: CallbackRoute)
    requires HasDomain(CONFIG)
    ensures RowMap(CONFIG, "alice", [c, d]) == map[WantedId("alice", c) := WantedRow(CONFIG, "alice", c)]
      + (map[WantedId("alice", d) := WantedRow(CONFIG, "alice", d)] + RowMap(CONFIG, "alice", []))
  {
    hide WantedId, WantedRow, HasDomain;
    assert [c, d][1..] == [d] && [d][1..] == [];
  }

  lemma TwoRows(db: Db, c: CallbackRoute, d: CallbackRoute)
    requires HasDomain(CONFIG) && WantedId("alice", c) == WantedId("alice", d)
    ensures db.(routes := db.routes + RowMap(CONFIG, "alice", [c, d])) == WithRoute(db, WantedRow(CONFIG, "alice", d))
  {
    assert RowMap(CONFIG, "alice", []) == map[];
    hide WantedId, WantedRow, HasDomain, RowMap, WithRoute;
    var id, row := WantedId("alice", d), WantedRow(CONFIG, "alice", d);
    WantedRowShape(CONFIG, "alice", d);
    RowsOfTwo(c, d);
    Overwritten(id, WantedRow(CONFIG, "alice", c), row, RowMap(CONFIG, "alice", []));
    PutOne(db, row);
  }

  /** Two plugins whose callbacks share both slugs ask for different ports: both synchronisations
      succeed, the one that publishes the second plugin last serves its port, the other one the port of
      the first, and neither table is in step. */
  lemma SharedRouteFollowsTheOrder()
    ensures var a, b := CallbackAt("oauth"), Twin(19001);
      var t := AskBoth(a, b, [KeyOf(a), KeyOf(b)], SMOOTH_ORACLE);
      var u := AskBoth(a, b, [KeyOf(b), KeyOf(a)], SMOOTH_ORACLE);
      && Discovered(t) && InOrder(START.snap, t) && Discovered(u) && InOrder(START.snap, u)
      && var x, y := TakeTurn(CONFIG, "alice", START, t), TakeTurn(CONFIG, "alice", START, u);
      && x.ok && y.ok
      && PortServed("alice", x.world.db, b) && !PortServed("alice", x.world.db, a)
      && PortServed("alice", y.world.db, a) && !PortServed("alice", y.world.db, b)
  {
    var a, b := CallbackAt("oauth"), Twin(19001);
    TwinFacts(19001);
    hide KeyOf, Publishable, WantedId, WantedRow, HasDomain, SyncInOrder, Orders, PortServed, Both, CallbackAt, Keyed,
         Plain, Broken, IsCurrent, AskingBoth;
    BothAreDiscovered(a, b);
    BothCommute(a, b);
    SecondOverwrites(START.(entries := AskingBoth(a, b)), a, b);
    SecondOverwrites(START.(entries := AskingBoth(a, b)), b, a);
    LastIsServed(a, b);
    LastIsServed(b, a);
  }

  lemma BothCommute(c: CallbackRoute, d: CallbackRoute)
    requires KeyOf(c) != KeyOf(d)
    ensures Both(c, d) == Both(d, c)
  {
    hide KeyOf;
  }

  lemma LastIsServed(c: CallbackRoute, d: CallbackRoute)
    requires HasDomain(CONFIG) && WantedId("alice", c) == WantedId("alice", d) && c.localPort != d.localPort
    ensures var db := WithRoute(ONE_USER, WantedRow(CONFIG, "alice", d));
      PortServed("alice", db, d) && !PortServed("alice", db, c)
  {
    WantedRowShape(CONFIG, "alice", d);
    hide WantedId, WantedRow, HasDomain;
  }

  lemma BothSaved(a: CallbackRoute, b: CallbackRoute)
    requires HasDomain(CONFIG) && KeyOf(a) != KeyOf(b)
    ensures var saved := SnapshotOf(CONFIG, "alice", Both(a, b));
      && saved.Keys == {KeyOf(a), KeyOf(b)}
      && saved[KeyOf(a)] == PublishedEntry(a, WantedRow(CONFIG, "alice", a))
      && saved[KeyOf(b)] == PublishedEntry(b, WantedRow(CONFIG, "alice", b))
  {
    hide KeyOf, WantedRow, PublishedEntry, HasDomain;
    var current := Both(a, b);
    assert current.Keys == {KeyOf(a), KeyOf(b)} && current[KeyOf(a)] == a && current[KeyOf(b)] == b;
    hide Both;
  }

  /** Both entries in the snapshot, one of the callbacks wanted: one deletion. */
  lemma OneOfBoth(saved: Snapshot, a: CallbackRoute, b: CallbackRoute)
    requires HasDomain(CONFIG) && KeyOf(a) != KeyOf(b) && saved.Keys == {KeyOf(a), KeyOf(b)}
    requires saved[KeyOf(a)] == PublishedEntry(a, WantedRow(CONFIG, "alice", a))
    ensures RemovedKeys(saved, Only(a)) == {KeyOf(b)} && StaleKeys(saved, Only(a)) == {}
  {
    hide KeyOf, WantedRow, WantedId, HasDomain;
    assert !Stale(saved, KeyOf(a), a);
    hide Stale, PublishedEntry;
  }

  lemma OneGoesOrders(snap: Snapshot, a: CallbackRoute, b: CallbackRoute)
    requires RemovedKeys(snap, Only(a)) == {KeyOf(b)} && StaleKeys(snap, Only(a)) == {}
    ensures Orders(snap, Only(a), [KeyOf(b)], [])
  {
    hide KeyOf, RemovedKeys, StaleKeys;
    SingleListing(KeyOf(b));
  }

  lemma OneMayGo(w: World, a: CallbackRoute, b: CallbackRoute)
    requires RemovedKeys(w.snap, Only(a)) == {KeyOf(b)} && StaleKeys(w.snap, Only(a)) == {}
    requires HasRow("alice", w.db, w.snap[KeyOf(b)])
    ensures Unobstructed("alice", w.db, w.snap, Only(a))
  {
    hide KeyOf, HasRow, RemovedKeys, StaleKeys, Clash, Publishable;
    forall k, x ensures !Blocked("alice", w.db, w.snap, Only(a), k, x) {}
  }

  /** Two plugins whose callbacks share both slugs agree on the port and are both published; then one of
      them asks for nothing any more. Its removal deletes the route of the other, and every further
      synchronisation reports success without publishing it again. */
  lemma SharedRouteIsDeleted()
    ensures var a, b := CallbackAt("oauth"), Twin(19000);
      var t := AskBoth(a, b, [KeyOf(a), KeyOf(b)], SMOOTH_ORACLE);
      var u, again := Ask(a, [KeyOf(b)], [], SMOOTH_ORACLE), Ask(a, [], [], SMOOTH_ORACLE);
      && Discovered(t) && InOrder(START.snap, t) && Discovered(u)
      && var x := TakeTurn(CONFIG, "alice", START, t);
      && x.ok && PortServed("alice", x.world.db, a) && InOrder(x.world.snap, u)
      && var y := TakeTurn(CONFIG, "alice", x.world, u);
      && y.ok && WantedId("alice", a) !in y.world.db.routes && InOrder(y.world.snap, again)
      && TakeTurn(CONFIG, "alice", y.world, again) == Stage(y.world.(entries := again.entries), true)
  {
    var a, b := CallbackAt("oauth"), Twin(19000);
    TwinFacts(19000);
    hide KeyOf, Publishable, WantedId, WantedRow, HasDomain, SyncInOrder, Orders, PortServed, Both, CallbackAt,
         Keyed, Only, Home, Tracked, SnapshotOf, Mine, Plain, Broken, IsCurrent, Asking, AskingBoth;
    BothAreDiscovered(a, b);
    OnlyIsDiscovered(a);
    var start := START.(entries := AskingBoth(a, b));
    SecondOverwrites(start, a, b);
    SharedIsServed(a, b);
    FirstSaves(start, Both(a, b), [KeyOf(a), KeyOf(b)]);
    var x := TakeTurn(CONFIG, "alice", START, AskBoth(a, b, [KeyOf(a), KeyOf(b)], SMOOTH_ORACLE)).world;
    OneOfBothGoes(x.(entries := Asking(a)), a, b);
  }

  lemma OneOfBothGoes(w: World, a: CallbackRoute, b: CallbackRoute)
    requires HasDomain(CONFIG) && Home(CONFIG, "alice", w.db) && Tracked(CONFIG, "alice", w.snap)
    requires KeyOf(a) != KeyOf(b) && WantedId("alice", a) == WantedId("alice", b) && Without(a.pluginId, NUL)
    requires w.snap == SnapshotOf(CONFIG, "alice", Both(a, b))
    requires WantedId("alice", b) in w.db.routes && Mine("alice", w.db.routes[WantedId("alice", b)])
    ensures Orders(w.snap, Only(a), [KeyOf(b)], [])
    ensures var y := SyncInOrder(CONFIG, "alice", w, Only(a), [KeyOf(b)], [], SMOOTH_ORACLE);
      && y.ok && WantedId("alice", a) !in y.world.db.routes && Orders(y.world.snap, Only(a), [], [])
      && var next := y.world.(entries := Asking(a));
      SyncInOrder(CONFIG, "alice", next, Only(a), [], [], SMOOTH_ORACLE) == Stage(next, true)
  {
    hide KeyOf, WantedId, WantedRow, HasDomain, SyncInOrder, Orders, Both, Keyed, Only, Home, Tracked, SnapshotOf,
         Unobstructed, StaleKeys, RemovedKeys, Mine, Asking;
    OnlyFacts(a);
    BothSaved(a, b);
    OneOfBoth(w.snap, a, b);
    WantedRowShape(CONFIG, "alice", b);
    OneGoesOrders(w.snap, a, b);
    OneMayGo(w, a, b);
    SuccessIsExact(CONFIG, "alice", w, Only(a), [KeyOf(b)], [], SMOOTH_ORACLE);
    OneGoes(w, a, b);
  }

  lemma SharedIsServed(c: CallbackRoute, d: CallbackRoute)
    requires HasDomain(CONFIG) && WantedId("alice", c) == WantedId("alice", d) && c.localPort == d.localPort
    ensures var db := WithRoute(ONE_USER, WantedRow(CONFIG, "alice", d));
      && PortServed("alice", db, c) && WantedId("alice", d) in db.routes
      && Mine("alice", db.routes[WantedId("alice", d)])
  {
    WantedRowShape(CONFIG, "alice", d);
    hide WantedId, WantedRow, HasDomain, Mine;
  }

  lemma FirstSaves(w: World, current: CallbackMap, staleKeys: seq<string>)
    requires w.db == ONE_USER && w.snap == map[]
    requires Keyed(current) && Orders(map[], current, [], staleKeys)
    requires SyncInOrder(CONFIG, "alice", w, current, [], staleKeys, SMOOTH_ORACLE).ok
    ensures var after := SyncInOrder(CONFIG, "alice", w, current, [], staleKeys, SMOOTH_ORACLE).world;
      && HasDomain(CONFIG) && Home(CONFIG, "alice", after.db)
      && after.snap == SnapshotOf(CONFIG, "alice", current) && Tracked(CONFIG, "alice", after.snap)
  {
    hide Keyed, Orders, SyncInOrder, Home, HasDomain, SnapshotOf;
    OneUserIsHome();
    assert Tracked(CONFIG, "alice", map[]);
    hide Tracked;
    SyncKeepsHome(CONFIG, "alice", w, current, [], staleKeys, SMOOTH_ORACLE);
    SuccessSavesTheWanted(CONFIG, "alice", w, current, [], staleKeys, SMOOTH_ORACLE);
    SavedIsTracked(CONFIG, "alice", current);
  }

  lemma OneGoes(w: World, a: CallbackRoute, b: CallbackRoute)
    requires Home(CONFIG, "alice", w.db) && Tracked(CONFIG, "alice", w.snap) && Keyed(Only(a))
    requires RemovedKeys(w.snap, Only(a)) == {KeyOf(b)} && StaleKeys(w.snap, Only(a)) == {}
    requires w.snap[KeyOf(b)].routeId == WantedId("alice", a) && Orders(w.snap, Only(a), [KeyOf(b)], [])
    requires SyncInOrder(CONFIG, "alice", w, Only(a), [KeyOf(b)], [], SMOOTH_ORACLE).ok
    ensures var t := SyncInOrder(CONFIG, "alice", w, Only(a), [KeyOf(b)], [], SMOOTH_ORACLE);
      && WantedId("alice", a) !in t.world.db.routes && Orders(t.world.snap, Only(a), [], [])
      && var next := t.world.(entries := Asking(a));
      SyncInOrder(CONFIG, "alice", next, Only(a), [], [], SMOOTH_ORACLE) == Stage(next, true)
  {
    assert HasDomain(CONFIG);
    var k := KeyOf(a);
    assert k in Only(a) && Only(a)[k] == a;
    assert Stale(w.snap, k, a) ==> k in StaleKeys(w.snap, Only(a));
    assert KeyOf(b) in RemovedKeys(w.snap, Only(a));
    hide KeyOf, WantedId, HasDomain, SyncInOrder, Orders, Keyed, Only, Home, Tracked, SnapshotOf, StaleKeys,
         RemovedKeys, Stale;
    assert IsRemoved(w.snap, Only(a), WantedId("alice", a));
    SharedRouteGoes(CONFIG, "alice", w, Only(a), [KeyOf(b)], [], SMOOTH_ORACLE, k);
    SuccessSavesTheWanted(CONFIG, "alice", w, Only(a), [KeyOf(b)], [], SMOOTH_ORACLE);
    NothingStale(CONFIG, "alice", Only(a));
    var t := SyncInOrder(CONFIG, "alice", w, Only(a), [KeyOf(b)], [], SMOOTH_ORACLE);
    NothingToDo(CONFIG, "alice", t.world.(entries := Asking(a)), Only(a));
  }

  // ----- A watcher that never rests -----

  lemma OrphanIsHome(a: CallbackRoute)
    requires Publishable(a)
    ensures HasDomain(CONFIG) && Home(CONFIG, "alice", WithRoute(ONE_USER, WantedRow(CONFIG, "alice", a)))
  {
    OneUserIsHome();
    hide Home, HasDomain, Publishable, WantedId, RemoteUpsert, WantedRow;
    NothingHolds(ONE_USER, a);
    WantedIsAccepted(CONFIG, "alice", ONE_USER, a, NoFault);
    UpsertTouches(CONFIG, "alice", ONE_USER, a, NoFault, "");
    UpsertKeepsHome(CONFIG, "alice", ONE_USER, a, NoFault);
  }

  /** After a lost reply the first plugin asks for another hint and a second one for the hint of the
      orphan: from then on every synchronisation that visits the first plugin first publishes it, writes
      to the configuration, fails on the second, and so causes the next one, for ever. */
  lemma StuckOccurs(n: nat)
    ensures var a, b := CallbackAt("oauth"), CallbackAt("login");
      var other := CallbackRoute("mail", "oauth", 19002, "u", "p");
      var t, u := Ask(a, [], [KeyOf(a)], LOST_REPLY), AskBoth(b, other, [KeyOf(b), KeyOf(other)], SMOOTH_ORACLE);
      && Discovered(t) && InOrder(START.snap, t)
      && var w := TakeTurn(CONFIG, "alice", START, t).world.(entries := u.entries);
      var passes := Copies(Pass(u.current, Round([], u.staleKeys, SMOOTH_ORACLE)), n);
      && Chain(CONFIG, "alice", w, passes) && NoneSucceeds(CONFIG, "alice", w, passes)
      && Cascade(CONFIG, "alice", w, passes) == n
  {
    var a, b, other := CallbackAt("oauth"), CallbackAt("login"), CallbackRoute("mail", "oauth", 19002, "u", "p");
    hide Home, Slug, SyncInOrder, Orders, Only, Both, KeyOf, WantedId, HasDomain, WantedRow, Held, Broken, IsCurrent,
         Asking, AskingBoth, Spins, Chain, NoneSucceeds, Cascade;
    OneUserIsHome();
    OnlyIsDiscovered(a);
    FirstOrders(a);
    Slugs();
    CommittedOnly(START.(entries := Asking(a)), a);
    OrphanIsHome(a);
    IdsApart(a, other);
    FirstLetters();
    OrphanSpins(a, b, other);
    var db := WithRoute(ONE_USER, WantedRow(CONFIG, "alice", a));
    var p := Pass(Both(b, other), Round([], [KeyOf(b), KeyOf(other)], SMOOTH_ORACLE));
    SpinsForEver(CONFIG, "alice", World(db, AskingBoth(b, other), map[]), p, n);
  }

  lemma FirstLetters()
    ensures KeyOf(CallbackAt("login")) != KeyOf(CallbackRoute("mail", "oauth", 19002, "u", "p"))
  {
    assert KeyOf(CallbackAt("login"))[0] == 'c' && KeyOf(CallbackRoute("mail", "oauth", 19002, "u", "p"))[0] == 'm';
  }

  lemma OneRowTable(row: Route)
    ensures WithRoute(ONE_USER, row).routes.Keys == {row.id}
  {}

  lemma BothAreNew(c: CallbackRoute, d: CallbackRoute)
    requires KeyOf(c) != KeyOf(d)
    ensures var current := Both(c, d);
      && RemovedKeys(map[], current) == {} && StaleKeys(map[], current) == {KeyOf(c), KeyOf(d)}
      && KeyOf(c) in current && current[KeyOf(c)] == c && KeyOf(d) in current && current[KeyOf(d)] == d
  {
    hide KeyOf;
  }

  lemma OrphanHolds(db: Db, a: CallbackRoute, c: CallbackRoute)
    requires Home(CONFIG, "alice", db) && db.routes.Keys == {WantedId("alice", a)}
    ensures Slug(a.hostnameHint) != Slug(c.hostnameHint) ==> !Held("alice", db, c)
    ensures Api.HoldsHint(db, WantedId("alice", a), "alice", Slug(c.hostnameHint))
      <==> Slug(a.hostnameHint) == Slug(c.hostnameHint)
  {
    hide Home, Slug, WantedId, Api.HoldsHint;
    WantedIdHolds(CONFIG, "alice", db, a, Slug(c.hostnameHint));
  }

  lemma OrphanBlocks(db: Db, current: CallbackMap, k: string, id: string)
    requires id in db.routes && k in StaleKeys(map[], current) && id != WantedId("alice", current[k])
    requires Api.HoldsHint(db, id, "alice", Slug(current[k].hostnameHint))
    ensures !Unobstructed("alice", db, map[], current)
  {
    hide Slug, WantedId, Api.HoldsHint, Stale, RemovedInPlace, Publishable, Clash;
    assert !IsRemoved(map[], current, id);
    assert Blocked("alice", db, map[], current, k, id);
  }

  lemma HarmlessBoth(c: CallbackRoute, d: CallbackRoute)
    requires Plain(c) && Plain(d) && c.pluginId != d.pluginId
    ensures HarmlessKeys(AskingBoth(c, d))
  {
    BothAreWanted(c, d);
    SplitClean("u", '.');
    SplitClean("p", '.');
    hide Wanted, AskingBoth, Split;
  }

  lemma OrphanSticks(db: Db, entries: Entries, a: CallbackRoute, b: CallbackRoute, other: CallbackRoute)
    requires HasDomain(CONFIG) && Home(CONFIG, "alice", db) && db.routes.Keys == {WantedId("alice", a)}
    requires Publishable(b) && KeyOf(b) != KeyOf(other)
    requires Slug(other.hostnameHint) == Slug(a.hostnameHint) != Slug(b.hostnameHint)
    requires WantedId("alice", a) != WantedId("alice", other)
    ensures Stuck(CONFIG, "alice", World(db, entries, map[]), Both(b, other))
    ensures forall x :: !Blocked("alice", db, map[], Both(b, other), KeyOf(b), x)
  {
    hide Home, HasDomain, Slug, KeyOf, WantedId, Publishable, Unobstructed, StaleKeys, RemovedKeys, Both,
         Api.HoldsHint, Held, Mine;
    BothAreNew(b, other);
    OrphanHolds(db, a, b);
    OrphanHolds(db, a, other);
    OrphanBlocks(db, Both(b, other), KeyOf(other), WantedId("alice", a));
  }

  lemma OrphanSpins(a: CallbackRoute, b: CallbackRoute, other: CallbackRoute)
    requires HasDomain(CONFIG) && Publishable(b) && Without(b.pluginId, NUL) && Without(other.pluginId, NUL)
    requires Plain(b) && Plain(other) && b.pluginId != other.pluginId && KeyOf(b) != KeyOf(other)
    requires Home(CONFIG, "alice", WithRoute(ONE_USER, WantedRow(CONFIG, "alice", a)))
    requires Slug(other.hostnameHint) == Slug(a.hostnameHint) != Slug(b.hostnameHint)
    requires WantedId("alice", a) != WantedId("alice", other)
    ensures var db := WithRoute(ONE_USER, WantedRow(CONFIG, "alice", a));
      Spins(CONFIG, "alice", World(db, AskingBoth(b, other), map[]),
            Pass(Both(b, other), Round([], [KeyOf(b), KeyOf(other)], SMOOTH_ORACLE)))
  {
    hide Home, HasDomain, Slug, KeyOf, WantedId, WantedRow, Publishable, StaleKeys, RemovedKeys, Both, Blocked,
         Api.HoldsHint, Held, WithRoute, Mine, Plain, AskingBoth, Broken, IsCurrent, HarmlessKeys, Wanted, Stuck,
         Orders;
    WantedRowShape(CONFIG, "alice", a);
    var db := WithRoute(ONE_USER, WantedRow(CONFIG, "alice", a));
    OneRowTable(WantedRow(CONFIG, "alice", a));
    BothAreWanted(b, other);
    BothAreDiscovered(b, other);
    HarmlessBoth(b, other);
    BothAreNew(b, other);
    BothKeys(b, other);
    OrphanSticks(db, AskingBoth(b, other), a, b, other);
  }
}
