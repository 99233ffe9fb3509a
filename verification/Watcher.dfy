/** Reconciliation of a user's plugin callbacks: configuration, saved snapshot and route table. */
module Watcher {
  import opened Text
  import opened State
  import opened Identity
  import opened Callbacks
  import Api

  // ----- The remote calls and their faults -----

  /** A call may fail before the service changed anything, or after it did: when publication
      failed or the response was lost. */
  datatype Fault = NoFault | BeforeCommit | AfterCommit

  datatype UpsertFault = UpsertFault(remote: Fault, writer: WriterFault, asNumber: bool)

  /** What the environment decides during one synchronisation; missing elements are faultless. */
  datatype Oracle = Oracle(read: bool, deletes: seq<Fault>, upserts: seq<UpsertFault>, save: bool)

  predicate AllDeleted(faults: seq<Fault>) { forall i :: 0 <= i < |faults| ==> faults[i] == NoFault }

  predicate AllPublished(faults: seq<UpsertFault>) {
    forall i :: 0 <= i < |faults| ==> faults[i].remote == NoFault && faults[i].writer == Written
  }

  predicate Faultless(o: Oracle) { o.read && o.save && AllDeleted(o.deletes) && AllPublished(o.upserts) }

  function Head<T>(s: seq<T>, otherwise: T): T { if s == [] then otherwise else s[0] }

  function Tail<T>(s: seq<T>): seq<T> { if s == [] then [] else s[1..] }

  const SMOOTH := UpsertFault(NoFault, Written, false)

  datatype World = World(db: Db, entries: Entries, snap: Snapshot)

  datatype Reply = Reply(db: Db, route: Option<Route>)

  function RemoteUpsert(cfg: MaybeConfig, username: string, db: Db, c: CallbackRoute, f: Fault): Reply {
    if f == BeforeCommit then Reply(db, None)
    else
      var changed := Api.Change(cfg, db, Api.UpsertPlugin(username, c.pluginId, c.hostnameHint, c.localPort));
      Reply(changed.db, if f == AfterCommit || changed.err.Some? then None else changed.route)
  }

  datatype Deletion = Deletion(db: Db, ok: bool)

  function RemoteDelete(cfg: MaybeConfig, username: string, db: Db, id: string, f: Fault): Deletion {
    if f == BeforeCommit then Deletion(db, false)
    else
      var changed := Api.Change(cfg, db, Api.DeletePlugin(username, id));
      Deletion(changed.db, f == NoFault && changed.err.None?)
  }

  // ----- Sync -----

  datatype Stage = Stage(world: World, ok: bool)

  /** Delete the routes of removed entries, in the given order, until a call fails. An entry
      without a route ID is passed over and stays in the snapshot. */
  function DeleteLoop(cfg: MaybeConfig, username: string, w: World, removed: seq<SnapshotEntry>,
      faults: seq<Fault>): Stage
    decreases |removed|
  {
    if removed == [] then Stage(w, true)
    else if removed[0].routeId == "" then DeleteLoop(cfg, username, w, removed[1..], faults)
    else
      var d := RemoteDelete(cfg, username, w.db, removed[0].routeId, Head(faults, NoFault));
      if !d.ok then Stage(w.(db := d.db), false)
      else
        var next := w.(db := d.db, snap := w.snap - {EntryKey(removed[0])});
        DeleteLoop(cfg, username, next, removed[1..], Tail(faults))
  }

  function Url(hostname: string): string { "https://" + hostname }

  function PublishedEntry(c: CallbackRoute, r: Route): SnapshotEntry {
    SnapshotEntry(c.pluginId, c.hostnameHint, c.localPort, r.id, Url(r.hostname), c.urlKey, c.portKey, true)
  }

  /** Publish, write back and remember each callback, in the given order, until a step fails. */
  function UpsertLoop(cfg: MaybeConfig, username: string, w: World, added: seq<CallbackRoute>,
      faults: seq<UpsertFault>): Stage
    decreases |added|
  {
    if added == [] then Stage(w, true)
    else
      var c, f := added[0], Head(faults, SMOOTH);
      var reply := RemoteUpsert(cfg, username, w.db, c, f.remote);
      if reply.route.None? then Stage(w.(db := reply.db), false)
      else
        var r := reply.route.value;
        var entries := SetCallback(w.entries, c, Url(r.hostname), r.localPort, f.writer, f.asNumber);
        if f.writer != Written then Stage(w.(db := reply.db, entries := entries), false)
        else
          var next := World(reply.db, entries, w.snap[KeyOf(c) := PublishedEntry(c, r)]);
          UpsertLoop(cfg, username, next, added[1..], Tail(faults))
  }

  /** One synchronisation with given orders. The saved snapshot changes only at the very end. */
  function Sync(cfg: MaybeConfig, username: string, w: World, removed: seq<SnapshotEntry>,
                added: seq<CallbackRoute>, o: Oracle): Stage {
    if !o.read then Stage(w, false)
    else
      var deleted := DeleteLoop(cfg, username, w, removed, o.deletes);
      if !deleted.ok then Stage(deleted.world.(snap := w.snap), false)
      else
        var published := UpsertLoop(cfg, username, deleted.world, added, o.upserts);
        if !published.ok || !o.save then Stage(published.world.(snap := w.snap), false)
        else published
  }

  /** The orders a synchronisation may take: any order of the removed and of the stale keys. */
  predicate Orders(snap: Snapshot, current: CallbackMap, removedKeys: seq<string>, staleKeys: seq<string>) {
    Enumerates(removedKeys, RemovedKeys(snap, current)) && Enumerates(staleKeys, StaleKeys(snap, current))
  }

  function SyncInOrder(cfg: MaybeConfig, username: string, w: World, current: CallbackMap,
                       removedKeys: seq<string>, staleKeys: seq<string>, o: Oracle): Stage
    requires Orders(w.snap, current, removedKeys, staleKeys)
  {
    Sync(cfg, username, w, Pick(w.snap, removedKeys), Pick(current, staleKeys), o)
  }
  // ----- Rows, callbacks and entries -----

  /** The plugin rows of the user. */
  predicate Mine(username: string, r: Route) { r.kind == Plugin && r.username == username }

  /** A row that is none of the user's plugin rows. */
  predicate Stays(username: string, db: Db, id: string) { id in db.routes && !Mine(username, db.routes[id]) }

  function WantedId(username: string, c: CallbackRoute): string {
    PluginRouteId(username, Slug(c.pluginId), Slug(c.hostnameHint))
  }

  function HostOf(cfg: MaybeConfig, username: string, hint: string): string
    requires HasDomain(cfg)
  {
    RouteHostname(cfg, Slug(hint), username).value
  }

  /** The row that publishing the callback writes. */
  function WantedRow(cfg: MaybeConfig, username: string, c: CallbackRoute): Route
    requires HasDomain(cfg)
  {
    Api.PluginRoute(username, Slug(c.pluginId), Slug(c.hostnameHint), c.localPort,
                    HostOf(cfg, username, c.hostnameHint))
  }

  /** Callbacks are filed under their keys, and a key tells plugin and hint. */
  predicate Keyed(current: CallbackMap) {
    forall k :: k in current ==> KeyOf(current[k]) == k && Without(current[k].pluginId, NUL)
  }

  /** A reachable store that knows the user. */
  predicate Home(cfg: MaybeConfig, username: string, db: Db) {
    Api.Sound(cfg, db) && HasDomain(cfg) && username in db.users
  }

  predicate HasRow(username: string, db: Db, e: SnapshotEntry) {
    e.routeId in db.routes && Mine(username, db.routes[e.routeId])
  }

  predicate IsRemoved(snap: Snapshot, current: CallbackMap, id: string) {
    exists k :: k in RemovedKeys(snap, current) && snap[k].routeId == id
  }

  predicate IsWanted(username: string, current: CallbackMap, id: string) {
    exists k :: k in current && WantedId(username, current[k]) == id
  }

  predicate IsWantedAnew(username: string, snap: Snapshot, current: CallbackMap, id: string) {
    exists k :: k in StaleKeys(snap, current) && WantedId(username, current[k]) == id
  }

  predicate SameRow(a: Db, b: Db, id: string) {
    (id in a.routes <==> id in b.routes) && (id in a.routes ==> a.routes[id] == b.routes[id])
  }

  /** The snapshot after a completed synchronisation. */
  function SnapshotOf(cfg: MaybeConfig, username: string, current: CallbackMap): Snapshot
    requires HasDomain(cfg)
  {
    map k | k in current :: PublishedEntry(current[k], WantedRow(cfg, username, current[k]))
  }

  lemma HomeFacts(cfg: MaybeConfig, username: string, db: Db)
    requires Home(cfg, username, db)
    ensures HasDomain(cfg) && ValidUsername(username)
  {}

  lemma WantedIdDecodes(username: string, c: CallbackRoute)
    requires ValidUsername(username)
    ensures DecodeRouteId(WantedId(username, c)) == Some(PluginOf(username, Slug(c.pluginId), Slug(c.hostnameHint)))
  {
    SlugIsSlugged(c.pluginId);
    SlugIsSlugged(c.hostnameHint);
    RouteIdsDecode(username, Slug(c.pluginId), Slug(c.hostnameHint));
  }

  /** Callbacks share a route exactly if they share both slugs. */
  lemma SharedRoute(username: string, c: CallbackRoute, d: CallbackRoute)
    requires ValidUsername(username)
    ensures WantedId(username, c) == WantedId(username, d)
      <==> Slug(c.pluginId) == Slug(d.pluginId) && Slug(c.hostnameHint) == Slug(d.hostnameHint)
  {
    WantedIdDecodes(username, c);
    WantedIdDecodes(username, d);
    hide DecodeRouteId, Slug, ValidUsername;
  }

  /** Callbacks that share a route and a port are published as the same row. */
  lemma SharedRow(cfg: MaybeConfig, username: string, c: CallbackRoute, d: CallbackRoute)
    requires ValidUsername(username) && HasDomain(cfg)
    requires WantedId(username, c) == WantedId(username, d) && c.localPort == d.localPort
    ensures WantedRow(cfg, username, c) == WantedRow(cfg, username, d)
  {
    hide Slug, ValidUsername, HasDomain, WantedId;
    SharedRoute(username, c, d);
  }

  lemma WantedRowShape(cfg: MaybeConfig, username: string, c: CallbackRoute)
    requires HasDomain(cfg)
    ensures WantedRow(cfg, username, c).id == WantedId(username, c) && Mine(username, WantedRow(cfg, username, c))
    ensures WantedRow(cfg, username, c).localPort == c.localPort
  {}

  /** A row with a wanted ID is the user's. */
  lemma WantedIdIsMine(cfg: MaybeConfig, username: string, db: Db, c: CallbackRoute)
    requires Home(cfg, username, db) && WantedId(username, c) in db.routes
    ensures Mine(username, db.routes[WantedId(username, c)])
  {
    hide Integrity, WellNamed, ValidUsername, DecodeRouteId, Slug;
    var row := db.routes[WantedId(username, c)];
    RowFacts(cfg, db, WantedId(username, c));
    HomeFacts(cfg, username, db);
    WantedIdDecodes(username, c);
    assert GatewayRouteId(row.username)[0] == 'g' && WantedId(username, c)[0] == 'p';
  }

  /** A row with a wanted ID holds exactly the hint of that callback. */
  lemma WantedIdHolds(cfg: MaybeConfig, username: string, db: Db, c: CallbackRoute, hint: string)
    requires Home(cfg, username, db) && WantedId(username, c) in db.routes
    ensures Api.HoldsHint(db, WantedId(username, c), username, hint) <==> hint == Slug(c.hostnameHint)
  {
    WantedIdIsMine(cfg, username, db, c);
    HomeFacts(cfg, username, db);
    WantedIdDecodes(username, c);
    hide Home, DecodeRouteId, Slug, ValidUsername;
  }

  // ----- Single calls -----

  lemma DeleteTouches(cfg: MaybeConfig, username: string, db: Db, id: string, f: Fault)
    ensures var d := RemoteDelete(cfg, username, db, id, f);
      (d.db == db || d.db == db.(routes := db.routes - {id})) && (d.ok ==> id in db.routes)
  {}

  /** A deletion keeps the tables reachable; it takes the row or nothing, and the row was the user's. */
  lemma DeleteKeepsHome(cfg: MaybeConfig, username: string, db: Db, id: string, f: Fault)
    requires Home(cfg, username, db)
    ensures Home(cfg, username, RemoteDelete(cfg, username, db, id, f).db)
    ensures var d := RemoteDelete(cfg, username, db, id, f);
      && (d.db == db || d.db == db.(routes := db.routes - {id}))
      && (d.ok || d.db != db ==> id in db.routes && Mine(username, db.routes[id]))
      && (d.ok ==> d.db == db.(routes := db.routes - {id}))
  {
    hide Integrity, WellNamed, ValidUsername;
    HomeFacts(cfg, username, db);
    Api.ChangeKeepsSound(cfg, db, Api.DeletePlugin(username, id));
    if id in db.routes { PrefixCheckMeansOwnership(cfg, db, username, id); }
  }

  lemma DeletionSucceeds(cfg: MaybeConfig, username: string, db: Db, id: string)
    requires Home(cfg, username, db) && id in db.routes && Mine(username, db.routes[id])
    ensures id != "" && RemoteDelete(cfg, username, db, id, NoFault) == Deletion(db.(routes := db.routes - {id}), true)
  {
    hide Integrity, WellNamed, ValidUsername;
    HomeFacts(cfg, username, db);
    PrefixCheckMeansOwnership(cfg, db, username, id);
  }

  /** A publication writes the wanted row or nothing, and answers with the row it wrote. */
  lemma UpsertTouches(cfg: MaybeConfig, username: string, db: Db, c: CallbackRoute, f: Fault, x: string)
    requires HasDomain(cfg)
    ensures var reply := RemoteUpsert(cfg, username, db, c, f);
      && (reply.db == db || reply.db == WithRoute(db, WantedRow(cfg, username, c)))
      && (reply.route.Some? ==>
            reply.route.value == WantedRow(cfg, username, c) && reply.db == WithRoute(db, reply.route.value))
      && (x != WantedId(username, c) ==> SameRow(db, reply.db, x))
  {
    hide Slug, HostnameTaken;
  }

  lemma UpsertKeepsHome(cfg: MaybeConfig, username: string, db: Db, c: CallbackRoute, f: Fault)
    requires Home(cfg, username, db)
    ensures Home(cfg, username, RemoteUpsert(cfg, username, db, c, f).db)
  {
    hide Api.Sound, Slug, HostnameTaken;
    Api.ChangeKeepsSound(cfg, db, Api.UpsertPlugin(username, c.pluginId, c.hostnameHint, c.localPort));
  }

  /** The callback has slugs and a port. */
  predicate Publishable(c: CallbackRoute) {
    Slug(c.pluginId) != "" && Slug(c.hostnameHint) != "" && c.localPort > 0
  }

  /** Another route holds the hint. */
  predicate Held(username: string, db: Db, c: CallbackRoute) {
    Api.HintTaken(db, username, WantedId(username, c), Slug(c.hostnameHint))
  }

  /** The service accepts a callback exactly if it is publishable and no other route holds its hint;
      a route that was deleted no longer does. */
  lemma WantedIsAccepted(cfg: MaybeConfig, username: string, db: Db, c: CallbackRoute, f: Fault)
    requires Home(cfg, username, db)
    ensures RemoteUpsert(cfg, username, db, c, f).route.Some?
      <==> f == NoFault && Publishable(c) && !Held(username, db, c)
  {
    if Publishable(c) {
      Api.PluginUpsertRefusal(cfg, db, username, c.pluginId, c.hostnameHint, c.localPort);
      hide Api.Sound, Api.Change, Slug, PluginRouteId, Api.HintTaken, Home;
      PublishedOrRefused(cfg, username, db, c, f);
    } else {
      UnpublishableIsRefused(cfg, username, db, c, f);
    }
  }

  lemma UnpublishableIsRefused(cfg: MaybeConfig, username: string, db: Db, c: CallbackRoute, f: Fault)
    requires !Publishable(c)
    ensures RemoteUpsert(cfg, username, db, c, f).route.None?
  {
    hide Slug, HostnameTaken, PutRoute, RouteHostname;
  }

  lemma PublishedOrRefused(cfg: MaybeConfig, username: string, db: Db, c: CallbackRoute, f: Fault)
    ensures var changed := Api.Change(cfg, db, Api.UpsertPlugin(username, c.pluginId, c.hostnameHint, c.localPort));
      RemoteUpsert(cfg, username, db, c, f).route.Some? <==> f == NoFault && changed.err.None?
  {
    hide Slug, HostnameTaken, RouteHostname;
  }

  // ----- The delete loop -----

  function EntryKeys(removed: seq<SnapshotEntry>): set<string> { set e | e in removed :: EntryKey(e) }

  function RouteIds(removed: seq<SnapshotEntry>): set<string> { set e | e in removed :: e.routeId }

  /** The routes of the entries that name one are there, are the user's, and differ. */
  predicate Deletable(username: string, db: Db, removed: seq<SnapshotEntry>) {
    && (forall i :: 0 <= i < |removed| ==> MayGo(username, db, removed[i]))
    && (forall i, j :: 0 <= i < j < |removed| ==> Apart(removed[i], removed[j]))
  }

  predicate MayGo(username: string, db: Db, e: SnapshotEntry) { e.routeId == "" || HasRow(username, db, e) }

  predicate Apart(e: SnapshotEntry, f: SnapshotEntry) { e.routeId == "" || e.routeId != f.routeId }

  /** However it ends, a row is as before or is gone and named by one of the entries; in reachable
      tables it then was the user's. */
  lemma {:induction false} DeleteLoopRow(cfg: MaybeConfig, username: string, w: World, removed: seq<SnapshotEntry>,
                                         faults: seq<Fault>, x: string)
    ensures var after := DeleteLoop(cfg, username, w, removed, faults).world;
      && after.entries == w.entries && after.db == w.db.(routes := after.db.routes)
      && (SameRow(w.db, after.db, x)
          || (x !in after.db.routes && exists i :: 0 <= i < |removed| && removed[i].routeId == x))
      && (Home(cfg, username, w.db) && Stays(username, w.db, x) ==> SameRow(w.db, after.db, x))
    decreases |removed|
  {
    hide EntryKey, RemoteDelete, Home, Mine;
    if removed != [] {
      var e, rest := removed[0], removed[1..];
      assert forall i :: 0 <= i < |rest| ==> rest[i] == removed[i + 1];
      if e.routeId == "" {
        DeleteLoopRow(cfg, username, w, rest, faults, x);
      } else {
        var d := RemoteDelete(cfg, username, w.db, e.routeId, Head(faults, NoFault));
        DeleteTouches(cfg, username, w.db, e.routeId, Head(faults, NoFault));
        if Home(cfg, username, w.db) { DeleteKeepsHome(cfg, username, w.db, e.routeId, Head(faults, NoFault)); }
        assert SameRow(w.db, d.db, x) || (x == e.routeId && x !in d.db.routes);
        DeleteLoopRow(cfg, username, w.(db := d.db, snap := w.snap - {EntryKey(e)}), rest, Tail(faults), x);
      }
    }
  }

  lemma {:induction false} DeleteLoopKeepsHome(cfg: MaybeConfig, username: string, w: World,
                                               removed: seq<SnapshotEntry>, faults: seq<Fault>)
    requires Home(cfg, username, w.db)
    ensures Home(cfg, username, DeleteLoop(cfg, username, w, removed, faults).world.db)
    decreases |removed|
  {
    hide Home, RemoteDelete, EntryKey;
    if removed != [] {
      var e := removed[0];
      if e.routeId == "" {
        DeleteLoopKeepsHome(cfg, username, w, removed[1..], faults);
      } else {
        var d := RemoteDelete(cfg, username, w.db, e.routeId, Head(faults, NoFault));
        DeleteKeepsHome(cfg, username, w.db, e.routeId, Head(faults, NoFault));
        DeleteLoopKeepsHome(cfg, username, w.(db := d.db, snap := w.snap - {EntryKey(e)}), removed[1..], Tail(faults));
      }
    }
  }

  lemma DeletableStep(username: string, db: Db, removed: seq<SnapshotEntry>)
    requires removed != [] && MayGo(username, db, removed[0])
    ensures var next := if removed[0].routeId == "" then db else db.(routes := db.routes - {removed[0].routeId});
      Deletable(username, db, removed) <==> Deletable(username, next, removed[1..])
  {
    hide Mine;
    var e, rest := removed[0], removed[1..];
    var next := if e.routeId == "" then db else db.(routes := db.routes - {e.routeId});
    assert forall i :: 0 <= i < |rest| ==> rest[i] == removed[i + 1];
    if Deletable(username, next, rest) {
      forall i | 0 <= i < |removed| ensures MayGo(username, db, removed[i]) {
        if i > 0 { assert MayGo(username, next, rest[i - 1]); }
      }
      forall i, j | 0 <= i < j < |removed| ensures Apart(removed[i], removed[j]) {
        assert MayGo(username, next, rest[j - 1]);
        if i > 0 { assert Apart(rest[i - 1], rest[j - 1]); }
      }
    }
    if Deletable(username, db, removed) {
      forall i | 0 <= i < |rest| ensures MayGo(username, next, rest[i]) {
        assert MayGo(username, db, removed[i + 1]) && Apart(removed[0], removed[i + 1]);
      }
    }
  }

  /** The delete loop gets through only if its routes can be deleted, and without faults whenever
      they can. */
  lemma {:induction false} DeleteLoopIsExact(cfg: MaybeConfig, username: string, w: World,
                                             removed: seq<SnapshotEntry>, faults: seq<Fault>)
    requires Home(cfg, username, w.db)
    ensures var s := DeleteLoop(cfg, username, w, removed, faults);
      && (s.ok ==> Deletable(username, w.db, removed))
      && (Deletable(username, w.db, removed) && AllDeleted(faults) ==> s.ok)
    decreases |removed|
  {
    hide Home, EntryKey, RemoteDelete, Deletable, Mine;
    if removed == [] {
      NothingIsDeletable(username, w.db);
    } else {
      var e, rest := removed[0], removed[1..];
      if e.routeId == "" {
        DeletableStep(username, w.db, removed);
        DeleteLoopIsExact(cfg, username, w, rest, faults);
      } else {
        var f := Head(faults, NoFault);
        var d := RemoteDelete(cfg, username, w.db, e.routeId, f);
        DeleteKeepsHome(cfg, username, w.db, e.routeId, f);
        if HasRow(username, w.db, e) {
          DeletableStep(username, w.db, removed);
          DeletionSucceeds(cfg, username, w.db, e.routeId);
        } else {
          FirstMayGo(username, w.db, removed);
        }
        DeleteLoopIsExact(cfg, username, w.(db := d.db, snap := w.snap - {EntryKey(e)}), rest, Tail(faults));
      }
    }
  }

  lemma NothingIsDeletable(username: string, db: Db)
    ensures Deletable(username, db, [])
  {}

  lemma FirstMayGo(username: string, db: Db, removed: seq<SnapshotEntry>)
    requires removed != []
    ensures Deletable(username, db, removed) ==> MayGo(username, db, removed[0])
  {
    hide HasRow;
  }

  lemma ListSplits(removed: seq<SnapshotEntry>)
    requires removed != []
    ensures EntryKeys(removed) == {EntryKey(removed[0])} + EntryKeys(removed[1..])
    ensures RouteIds(removed) == {removed[0].routeId} + RouteIds(removed[1..])
  {
    assert removed == [removed[0]] + removed[1..];
  }

  lemma NoEmptyId(cfg: MaybeConfig, username: string, db: Db)
    requires Home(cfg, username, db)
    ensures "" !in db.routes
  {
    if "" in db.routes {
      RowFacts(cfg, db, "");
      hide Integrity, WellNamed, ValidUsername, DecodeRouteId;
    }
  }

  lemma CutMore<T>(m: map<string, T>, k: string, more: set<string>)
    ensures m - {k} - more == m - ({k} + more)
  {}

  /** A delete loop that got through took the named routes out of the table. */
  lemma {:induction false} DeleteLoopCuts(cfg: MaybeConfig, username: string, w: World,
                                          removed: seq<SnapshotEntry>, faults: seq<Fault>)
    requires Home(cfg, username, w.db) && DeleteLoop(cfg, username, w, removed, faults).ok
    ensures DeleteLoop(cfg, username, w, removed, faults).world.db
      == w.db.(routes := w.db.routes - RouteIds(removed))
    decreases |removed|
  {
    hide Home, RemoteDelete, EntryKey, RouteIds;
    if removed == [] {
      assert RouteIds(removed) == {} by { NoIds(); }
      assert w.db.routes - {} == w.db.routes;
    } else {
      var e, rest := removed[0], removed[1..];
      ListSplits(removed);
      CutMore(w.db.routes, e.routeId, RouteIds(rest));
      if e.routeId == "" {
        NoEmptyId(cfg, username, w.db);
        assert w.db.routes - {e.routeId} == w.db.routes;
        DeleteLoopCuts(cfg, username, w, rest, faults);
      } else {
        var d := RemoteDelete(cfg, username, w.db, e.routeId, Head(faults, NoFault));
        DeleteKeepsHome(cfg, username, w.db, e.routeId, Head(faults, NoFault));
        DeleteLoopCuts(cfg, username, w.(db := d.db, snap := w.snap - {EntryKey(e)}), rest, Tail(faults));
      }
    }
  }

  lemma NoIds()
    ensures RouteIds([]) == {} == EntryKeys([])
  {}

  /** If every entry names a route, it took the entries out of the snapshot. */
  lemma {:induction false} DeleteLoopCutsEntries(cfg: MaybeConfig, username: string, w: World,
                                                 removed: seq<SnapshotEntry>, faults: seq<Fault>)
    requires DeleteLoop(cfg, username, w, removed, faults).ok
    requires forall i :: 0 <= i < |removed| ==> removed[i].routeId != ""
    ensures DeleteLoop(cfg, username, w, removed, faults).world.snap == w.snap - EntryKeys(removed)
    decreases |removed|
  {
    hide RemoteDelete, EntryKey, EntryKeys;
    if removed == [] {
      assert EntryKeys(removed) == {} by { NoIds(); }
      assert w.snap - {} == w.snap;
    } else {
      var e, rest := removed[0], removed[1..];
      ListSplits(removed);
      CutMore(w.snap, EntryKey(e), EntryKeys(rest));
      var d := RemoteDelete(cfg, username, w.db, e.routeId, Head(faults, NoFault));
      forall i | 0 <= i < |rest| ensures rest[i].routeId != "" { assert rest[i] == removed[i + 1]; }
      DeleteLoopCutsEntries(cfg, username, w.(db := d.db, snap := w.snap - {EntryKey(e)}), rest, Tail(faults));
    }
  }

  // ----- The upsert loop -----

  /** The world after one round of the upsert loop. */
  function Next(w: World, c: CallbackRoute, f: UpsertFault, db: Db, r: Route): World {
    World(db, SetCallback(w.entries, c, Url(r.hostname), r.localPort, f.writer, f.asNumber),
          w.snap[KeyOf(c) := PublishedEntry(c, r)])
  }

  /** However it ends, a row is as before or the row of one of the callbacks. */
  lemma {:induction false} UpsertLoopRow(cfg: MaybeConfig, username: string, w: World, added: seq<CallbackRoute>,
                                         faults: seq<UpsertFault>, x: string)
    requires HasDomain(cfg)
    ensures var after := UpsertLoop(cfg, username, w, added, faults).world.db;
      && after == w.db.(routes := after.routes)
      && (SameRow(w.db, after, x) || exists i :: 0 <= i < |added| && IsRowOf(cfg, username, after, added[i], x))
    decreases |added|
  {
    hide RemoteUpsert, SetCallback, KeyOf, PublishedEntry, WantedId, WantedRow, HasDomain;
    if added != [] {
      var c, f := added[0], Head(faults, SMOOTH);
      var reply := RemoteUpsert(cfg, username, w.db, c, f.remote);
      UpsertTouches(cfg, username, w.db, c, f.remote, x);
      WantedRowShape(cfg, username, c);
      assert forall i :: 0 <= i < |added[1..]| ==> added[1..][i] == added[i + 1];
      assert SameRow(w.db, reply.db, x) || IsRowOf(cfg, username, reply.db, c, x);
      if reply.route.Some? && f.writer == Written {
        UpsertLoopRow(cfg, username, Next(w, c, f, reply.db, reply.route.value), added[1..], Tail(faults), x);
      }
    }
  }

  /** Row `x` is the row the callback is published as. */
  predicate IsRowOf(cfg: MaybeConfig, username: string, db: Db, c: CallbackRoute, x: string) {
    HasDomain(cfg) && x == WantedId(username, c) && x in db.routes && db.routes[x] == WantedRow(cfg, username, c)
  }

  lemma {:induction false} UpsertLoopKeepsHome(cfg: MaybeConfig, username: string, w: World,
                                               added: seq<CallbackRoute>, faults: seq<UpsertFault>)
    requires Home(cfg, username, w.db)
    ensures Home(cfg, username, UpsertLoop(cfg, username, w, added, faults).world.db)
    decreases |added|
  {
    hide Home, RemoteUpsert, SetCallback, KeyOf, PublishedEntry;
    if added != [] {
      var c, f := added[0], Head(faults, SMOOTH);
      var reply := RemoteUpsert(cfg, username, w.db, c, f.remote);
      UpsertKeepsHome(cfg, username, w.db, c, f.remote);
      if reply.route.Some? && f.writer == Written {
        UpsertLoopKeepsHome(cfg, username, Next(w, c, f, reply.db, reply.route.value), added[1..], Tail(faults));
      }
    }
  }

  /** Different routes under the same slugged hint. */
  predicate Clash(username: string, c: CallbackRoute, d: CallbackRoute) {
    Slug(c.hostnameHint) == Slug(d.hostnameHint) && WantedId(username, c) != WantedId(username, d)
  }

  /** The callbacks can be published one after the other. */
  predicate Acceptable(username: string, db: Db, added: seq<CallbackRoute>) {
    && (forall i :: 0 <= i < |added| ==> Publishable(added[i]) && !Held(username, db, added[i]))
    && (forall i, j :: 0 <= i < j < |added| ==> !Clash(username, added[i], added[j]))
  }

  lemma SameRowHoldsTheSame(a: Db, b: Db, x: string, username: string, hint: string)
    requires SameRow(a, b, x) && x in a.routes
    ensures Api.HoldsHint(a, x, username, hint) <==> Api.HoldsHint(b, x, username, hint)
  {
    hide DecodeRouteId, Slug;
  }

  /** Only row `id` is written, and it holds what it held if it was there. */
  lemma TakenAfter(db: Db, after: Db, username: string, id: string, own: string, hint: string)
    requires forall x :: x != id ==> SameRow(db, after, x)
    requires id in after.routes
    requires id in db.routes ==> (Api.HoldsHint(db, id, username, hint) <==> Api.HoldsHint(after, id, username, hint))
    ensures Api.HintTaken(after, username, own, hint)
      <==> Api.HintTaken(db, username, own, hint) || (id != own && Api.HoldsHint(after, id, username, hint))
  {
    hide Api.HoldsHint, SameRow;
    forall x | x in db.routes && x != id
      ensures x in after.routes && (Api.HoldsHint(db, x, username, hint) <==> Api.HoldsHint(after, x, username, hint))
    {
      SameRowBothWays(db, after, x);
      SameRowHoldsTheSame(db, after, x, username, hint);
    }
    forall x | x in after.routes && x != id ensures x in db.routes { SameRowBothWays(db, after, x); }
  }

  lemma SameRowBothWays(a: Db, b: Db, x: string)
    requires SameRow(a, b, x)
    ensures x in a.routes <==> x in b.routes
  {}

  /** Once a callback is published, its hint is held as well, and nothing else changes. */
  lemma HeldAfter(cfg: MaybeConfig, username: string, db: Db, c: CallbackRoute, d: CallbackRoute)
    requires Home(cfg, username, db) && HasDomain(cfg)
    requires Home(cfg, username, WithRoute(db, WantedRow(cfg, username, c)))
    ensures var after := WithRoute(db, WantedRow(cfg, username, c));
      Held(username, after, d) <==> Held(username, db, d) || Clash(username, c, d)
  {
    hide Home, HasDomain, Slug, WantedId, WantedRow, Api.HoldsHint, Api.HintTaken;
    var after := WithRoute(db, WantedRow(cfg, username, c));
    var id, hint := WantedId(username, c), Slug(d.hostnameHint);
    WantedRowShape(cfg, username, c);
    WantedIdHolds(cfg, username, after, c, hint);
    if id in db.routes { WantedIdHolds(cfg, username, db, c, hint); }
    TakenAfter(db, after, username, id, WantedId(username, d), hint);
  }

  lemma AcceptableStep(cfg: MaybeConfig, username: string, db: Db, added: seq<CallbackRoute>)
    requires Home(cfg, username, db) && HasDomain(cfg) && added != [] && Publishable(added[0])
    requires !Held(username, db, added[0]) && Home(cfg, username, WithRoute(db, WantedRow(cfg, username, added[0])))
    ensures Acceptable(username, db, added)
      <==> Acceptable(username, WithRoute(db, WantedRow(cfg, username, added[0])), added[1..])
  {
    hide Home, HasDomain, Publishable, Held, Clash, WantedRow;
    var after, rest := WithRoute(db, WantedRow(cfg, username, added[0])), added[1..];
    assert forall i :: 0 <= i < |rest| ==> rest[i] == added[i + 1];
    forall i | 0 <= i < |rest|
      ensures Held(username, after, rest[i])
        <==> Held(username, db, added[i + 1]) || Clash(username, added[0], added[i + 1])
    {
      HeldAfter(cfg, username, db, added[0], rest[i]);
    }
    if Acceptable(username, after, rest) {
      forall i | 0 <= i < |added| ensures Publishable(added[i]) && !Held(username, db, added[i]) {
        if i > 0 { assert Publishable(rest[i - 1]) && !Held(username, after, rest[i - 1]); }
      }
      forall i, j | 0 <= i < j < |added| ensures !Clash(username, added[i], added[j]) {
        if i > 0 { assert !Clash(username, rest[i - 1], rest[j - 1]); }
        else { assert !Held(username, after, rest[j - 1]); }
      }
    }
    if Acceptable(username, db, added) {
      forall i | 0 <= i < |rest| ensures Publishable(rest[i]) && !Held(username, after, rest[i]) {
        assert Publishable(added[i + 1]) && !Held(username, db, added[i + 1]);
        assert !Clash(username, added[0], added[i + 1]);
      }
    }
  }

  lemma FirstIsAcceptable(username: string, db: Db, added: seq<CallbackRoute>)
    requires added != []
    ensures Acceptable(username, db, added) ==> Publishable(added[0]) && !Held(username, db, added[0])
    ensures Acceptable(username, db, [])
  {
    hide Publishable, Held, Clash;
  }

  lemma UpsertLoopStep(cfg: MaybeConfig, username: string, w: World, added: seq<CallbackRoute>,
                       faults: seq<UpsertFault>)
    requires added != []
    ensures var c, f := added[0], Head(faults, SMOOTH);
      var ok, reply := UpsertLoop(cfg, username, w, added, faults).ok, RemoteUpsert(cfg, username, w.db, c, f.remote);
      && (ok ==> reply.route.Some? && f.writer == Written)
      && (reply.route.Some? && f.writer == Written ==>
            ok == UpsertLoop(cfg, username, Next(w, c, f, reply.db, reply.route.value), added[1..], Tail(faults)).ok)
  {
    hide RemoteUpsert, SetCallback, KeyOf, PublishedEntry, Url;
  }

  /** An answer to the first callback means that the others can be published after it just in case
      all can now; no answer means that the call failed or the callback cannot be published. */
  lemma FirstDecides(cfg: MaybeConfig, username: string, db: Db, added: seq<CallbackRoute>, f: Fault)
    requires Home(cfg, username, db) && added != []
    ensures var reply := RemoteUpsert(cfg, username, db, added[0], f);
      && Home(cfg, username, reply.db)
      && (reply.route.Some? ==> (Acceptable(username, db, added) <==> Acceptable(username, reply.db, added[1..])))
      && (reply.route.None? && f == NoFault ==> !Acceptable(username, db, added))
  {
    HomeFacts(cfg, username, db);
    hide Home, RemoteUpsert, Publishable, Held, Acceptable, HasDomain, ValidUsername, WantedRow, WantedId, WithRoute;
    WantedIsAccepted(cfg, username, db, added[0], f);
    UpsertTouches(cfg, username, db, added[0], f, "");
    UpsertKeepsHome(cfg, username, db, added[0], f);
    FirstIsAcceptable(username, db, added);
    if RemoteUpsert(cfg, username, db, added[0], f).route.Some? { AcceptableStep(cfg, username, db, added); }
  }

  /** The upsert loop gets through only if its callbacks can be published one after the other, and
      without faults whenever they can. */
  lemma {:induction false} UpsertLoopIsExact(cfg: MaybeConfig, username: string, w: World,
                                             added: seq<CallbackRoute>, faults: seq<UpsertFault>)
    requires Home(cfg, username, w.db)
    ensures var s := UpsertLoop(cfg, username, w, added, faults);
      && (s.ok ==> Acceptable(username, w.db, added))
      && (Acceptable(username, w.db, added) && AllPublished(faults) ==> s.ok)
    decreases |added|
  {
    if added == [] {
      NoneIsAcceptable(username, w.db);
    } else {
      hide Home, RemoteUpsert, Next, Acceptable, UpsertLoop, AllPublished, Head, Tail;
      if AllPublished(faults) { TailPublished(faults); }
      var c, f := added[0], Head(faults, SMOOTH);
      var reply := RemoteUpsert(cfg, username, w.db, c, f.remote);
      UpsertLoopStep(cfg, username, w, added, faults);
      FirstDecides(cfg, username, w.db, added, f.remote);
      if reply.route.Some? {
        var next := Next(w, c, f, reply.db, reply.route.value);
        NextDb(w, c, f, reply.db, reply.route.value);
        UpsertLoopIsExact(cfg, username, next, added[1..], Tail(faults));
      }
    }
  }

  lemma TailPublished(faults: seq<UpsertFault>)
    requires AllPublished(faults)
    ensures AllPublished(Tail(faults))
    ensures Head(faults, SMOOTH).remote == NoFault && Head(faults, SMOOTH).writer == Written
  {}

  lemma NextDb(w: World, c: CallbackRoute, f: UpsertFault, db: Db, r: Route)
    ensures Next(w, c, f, db, r).db == db
  {}

  lemma NoneIsAcceptable(username: string, db: Db)
    ensures Acceptable(username, db, [])
  {}

  /** The rows that publishing the callbacks in order puts into the table. */
  function RowMap(cfg: MaybeConfig, username: string, added: seq<CallbackRoute>): map<string, Route>
    requires HasDomain(cfg)
  {
    if added == [] then map[]
    else map[WantedId(username, added[0]) := WantedRow(cfg, username, added[0])] + RowMap(cfg, username, added[1..])
  }

  function EntryMap(cfg: MaybeConfig, username: string, added: seq<CallbackRoute>): Snapshot
    requires HasDomain(cfg)
  {
    if added == [] then map[]
    else
      var entry := PublishedEntry(added[0], WantedRow(cfg, username, added[0]));
      map[KeyOf(added[0]) := entry] + EntryMap(cfg, username, added[1..])
  }

  lemma MergeStep<T>(m: map<string, T>, k: string, v: T, rest: map<string, T>)
    ensures m[k := v] + rest == m + (map[k := v] + rest)
  {}

  /** An upsert loop that got through put one row and one entry for each callback. */
  lemma {:induction false} UpsertLoopFiles(cfg: MaybeConfig, username: string, w: World,
                                           added: seq<CallbackRoute>, faults: seq<UpsertFault>)
    requires HasDomain(cfg) && UpsertLoop(cfg, username, w, added, faults).ok
    ensures var after := UpsertLoop(cfg, username, w, added, faults).world;
      && after.db == w.db.(routes := w.db.routes + RowMap(cfg, username, added))
      && after.snap == w.snap + EntryMap(cfg, username, added)
    decreases |added|
  {
    hide RemoteUpsert, SetCallback, KeyOf, PublishedEntry, WantedRow, HasDomain, WantedId;
    if added == [] {
      assert w.snap + map[] == w.snap && w.db.routes + map[] == w.db.routes;
    } else {
      var c, f := added[0], Head(faults, SMOOTH);
      var reply := RemoteUpsert(cfg, username, w.db, c, f.remote);
      UpsertTouches(cfg, username, w.db, c, f.remote, "");
      WantedRowShape(cfg, username, c);
      var r := reply.route.value;
      UpsertLoopFiles(cfg, username, Next(w, c, f, reply.db, r), added[1..], Tail(faults));
      MergeStep(w.snap, KeyOf(c), PublishedEntry(c, r), EntryMap(cfg, username, added[1..]));
      MergeStep(w.db.routes, r.id, r, RowMap(cfg, username, added[1..]));
    }
  }

  lemma {:induction false} RowMapHas(cfg: MaybeConfig, username: string, added: seq<CallbackRoute>, i: nat)
    requires HasDomain(cfg) && i < |added|
    ensures WantedId(username, added[i]) in RowMap(cfg, username, added)
    decreases |added|
  {
    hide WantedId, WantedRow, HasDomain;
    if i > 0 {
      assert added[1..][i - 1] == added[i];
      RowMapHas(cfg, username, added[1..], i - 1);
    }
  }

  /** Each row put in is the row of one of the callbacks. */
  lemma {:induction false} RowMapFrom(cfg: MaybeConfig, username: string, added: seq<CallbackRoute>, id: string)
    returns (i: nat)
    requires HasDomain(cfg) && id in RowMap(cfg, username, added)
    ensures i < |added| && id == WantedId(username, added[i])
    ensures RowMap(cfg, username, added)[id] == WantedRow(cfg, username, added[i])
    decreases |added|
  {
    hide WantedId, WantedRow, HasDomain;
    i := 0;
    if id in RowMap(cfg, username, added[1..]) {
      i := RowMapFrom(cfg, username, added[1..], id);
      i := i + 1;
    }
  }

  /** Each entry put in is the entry of one of the callbacks. */
  lemma {:induction false} EntryMapFrom(cfg: MaybeConfig, username: string, added: seq<CallbackRoute>, k: string)
    returns (i: nat)
    requires HasDomain(cfg) && k in EntryMap(cfg, username, added)
    ensures i < |added| && KeyOf(added[i]) == k
    ensures EntryMap(cfg, username, added)[k] == PublishedEntry(added[i], WantedRow(cfg, username, added[i]))
    decreases |added|
  {
    hide WantedRow, KeyOf, PublishedEntry, HasDomain;
    i := 0;
    if k in EntryMap(cfg, username, added[1..]) {
      i := EntryMapFrom(cfg, username, added[1..], k);
      i := i + 1;
    }
  }

  lemma {:induction false} EntryMapHas(cfg: MaybeConfig, username: string, added: seq<CallbackRoute>, i: nat)
    requires HasDomain(cfg) && i < |added|
    ensures KeyOf(added[i]) in EntryMap(cfg, username, added)
    decreases |added|
  {
    hide WantedRow, KeyOf, PublishedEntry, HasDomain;
    if i > 0 {
      assert added[1..][i - 1] == added[i];
      EntryMapHas(cfg, username, added[1..], i - 1);
    }
  }

  /** With different keys each callback has its entry. */
  lemma EntryMapAt(cfg: MaybeConfig, username: string, added: seq<CallbackRoute>, i: nat)
    requires HasDomain(cfg) && i < |added|
    requires forall i, j :: 0 <= i < j < |added| ==> KeyOf(added[i]) != KeyOf(added[j])
    ensures var entries := EntryMap(cfg, username, added);
      && KeyOf(added[i]) in entries
      && entries[KeyOf(added[i])] == PublishedEntry(added[i], WantedRow(cfg, username, added[i]))
  {
    hide WantedRow, KeyOf, PublishedEntry, HasDomain, EntryMap;
    EntryMapHas(cfg, username, added, i);
    var j := EntryMapFrom(cfg, username, added, KeyOf(added[i]));
  }
}
