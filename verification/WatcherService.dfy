/** The watcher service: reconciliation as the program performs it, step by step, against a route
    service that publishes. */
module WatcherService {
  import opened Text
  import opened State
  import opened Identity
  import opened Callbacks
  import opened Watcher
  import opened Reconcile
  import opened Readiness
  import Api
  import Ingress

  // ----- Remote calls and operations of the route service -----

  /** What the caller makes of an answer: a failed publication is a change without a success. */
  function FaultOf(err: Option<Api.ApiError>): Fault {
    if err.Some? && err.value.Publishing? then AfterCommit else NoFault
  }

  /** Each remote call is one operation of the route service, publication included. */
  lemma RemoteCallsAreServiceSteps(sv: Api.Service, sys: Api.System, username: string, c: CallbackRoute,
      id: string, env: Api.Env)
    ensures var up := Api.Step(sv, sys, Api.UpsertPlugin(username, c.pluginId, c.hostnameHint, c.localPort), env);
      RemoteUpsert(sv.cfg, username, sys.db, c, FaultOf(up.err))
        == Reply(up.sys.db, if up.err.None? then up.route else None)
    ensures var down := Api.Step(sv, sys, Api.DeletePlugin(username, id), env);
      RemoteDelete(sv.cfg, username, sys.db, id, FaultOf(down.err)) == Deletion(down.sys.db, down.err.None?)
  {
    hide Api.Republish, Slug, PutRoute, RouteHostname, DeleteRoute;
  }

  /** The fault a call really meets: the one it was given, or, if none was given, a publication that
      failed after the commit. */
  predicate Happened(met: Fault, given: Fault) {
    met == given || (given == NoFault && met == AfterCommit)
  }

  class RouteClient {
    const service: Api.RouteService

    constructor (service: Api.RouteService)
      ensures this.service == service
    {
      this.service := service;
    }

    /** A service whose settings agree with its publisher's. */
    ghost predicate Valid()
      reads service.store
    {
      && Api.Sound(service.cfg, service.store.View())
      && (service.publisher != null ==>
            service.publisher.settings.cfg == service.cfg && Api.OneLineSettings(service.publisher.settings))
    }

    ghost predicate Fits(env: Api.Env) {
      service.publisher != null ==> env.backupPath != service.publisher.settings.path
    }

    /** Store, file and tunnel agree. */
    ghost predicate InAgreement()
      reads service.Footprint()
    {
      service.publisher != null ==> Api.Published(service.Setup(), service.View())
    }

    method UpsertPluginRoute(username: string, c: CallbackRoute, f: Fault,
        env: Api.Env) returns (r: Option<Route>, ghost met: Fault)
      requires Valid() && Fits(env)
      modifies service.store, service.publisher
      ensures Valid() && Happened(met, f) && (service.publisher == null ==> met == f)
      ensures Reply(service.store.View(), r) == RemoteUpsert(service.cfg, username, old(service.store.View()), c, met)
      ensures r.Some? ==> InAgreement()
    {
      hide Api.Sound, RemoteUpsert, Api.Step, Api.OneLineSettings, Api.Published;
      SoundHasKeys(service.cfg, service.store.View());
      if f == BeforeCommit {
        UncommittedUpsert(service.cfg, username, service.store.View(), c);
        return None, f;
      }
      ghost var sv, sys := service.Setup(), service.View();
      ghost var op := Api.UpsertPlugin(username, c.pluginId, c.hostnameHint, c.localPort);
      var route, err := service.UpsertPluginRoute(username, c.pluginId, c.hostnameHint, c.localPort, env);
      RemoteCallsAreServiceSteps(sv, sys, username, c, "", env);
      LostUpsert(sv, sys, username, c, env);
      StepIsSound(sv, sys, op, env);
      NobodyPublishes(sv, sys, op, env);
      if err.None? && sv.publisher.Some? { Api.SuccessMeansPublished(sv, sys, op, env); }
      if f == AfterCommit { return None, f; }
      if err.Some? { return None, FaultOf(err); }
      return route, NoFault;
    }

    method DeletePluginRoute(username: string, id: string, f: Fault, env: Api.Env) returns (ok: bool, ghost met: Fault)
      requires Valid() && Fits(env)
      modifies service.store, service.publisher
      ensures Valid() && Happened(met, f) && (service.publisher == null ==> met == f)
      ensures Deletion(service.store.View(), ok)
        == RemoteDelete(service.cfg, username, old(service.store.View()), id, met)
      ensures ok ==> InAgreement()
    {
      hide Api.Sound, RemoteDelete, Api.Step, Api.OneLineSettings, Api.Published;
      SoundHasKeys(service.cfg, service.store.View());
      if f == BeforeCommit {
        UncommittedDelete(service.cfg, username, service.store.View(), id);
        return false, f;
      }
      ghost var sv, sys := service.Setup(), service.View();
      ghost var op := Api.DeletePlugin(username, id);
      var err := service.DeletePluginRoute(username, id, env);
      RemoteCallsAreServiceSteps(sv, sys, username, CallbackRoute("", "", 0, "", ""), id, env);
      LostDelete(sv, sys, username, id, env);
      StepIsSound(sv, sys, op, env);
      NobodyPublishes(sv, sys, op, env);
      if err.None? && sv.publisher.Some? { Api.SuccessMeansPublished(sv, sys, op, env); }
      if f == AfterCommit { return false, f; }
      return err.None?, FaultOf(err);
    }
  }

  lemma SoundHasKeys(cfg: MaybeConfig, db: Db)
    requires Api.Sound(cfg, db)
    ensures PrimaryKeys(db)
  {}

  lemma UncommittedUpsert(cfg: MaybeConfig, username: string, db: Db, c: CallbackRoute)
    ensures RemoteUpsert(cfg, username, db, c, BeforeCommit) == Reply(db, None)
  {}

  lemma UncommittedDelete(cfg: MaybeConfig, username: string, db: Db, id: string)
    ensures RemoteDelete(cfg, username, db, id, BeforeCommit) == Deletion(db, false)
  {}

  /** A reply that is lost leaves the table as the operation left it. */
  lemma LostUpsert(sv: Api.Service, sys: Api.System, username: string, c: CallbackRoute, env: Api.Env)
    ensures var up := Api.Step(sv, sys, Api.UpsertPlugin(username, c.pluginId, c.hostnameHint, c.localPort), env);
      RemoteUpsert(sv.cfg, username, sys.db, c, AfterCommit) == Reply(up.sys.db, None)
  {
    hide Api.Republish, Api.Change;
  }

  lemma LostDelete(sv: Api.Service, sys: Api.System, username: string, id: string, env: Api.Env)
    ensures var down := Api.Step(sv, sys, Api.DeletePlugin(username, id), env);
      RemoteDelete(sv.cfg, username, sys.db, id, AfterCommit) == Deletion(down.sys.db, false)
  {
    hide Api.Republish, Api.Change;
  }

  lemma StepIsSound(sv: Api.Service, sys: Api.System, op: Api.Op, env: Api.Env)
    requires Api.Sound(sv.cfg, sys.db)
    ensures Api.Sound(sv.cfg, Api.Step(sv, sys, op, env).sys.db)
  {
    hide Api.Sound, Api.Change, Api.Republish;
    Api.ChangeKeepsSound(sv.cfg, sys.db, op);
  }

  /** Without a publisher no publication fails. */
  lemma NobodyPublishes(sv: Api.Service, sys: Api.System, op: Api.Op, env: Api.Env)
    ensures sv.publisher.None? ==> FaultOf(Api.Step(sv, sys, op, env).err) == NoFault
  {
    hide GatewayHostname, RouteHostname, Slug, PutRoute, DeleteRoute;
  }

  // ----- Loops and the faults they really meet -----

  /** After the calls so far met the faults `met`, the delete loop goes on from here. */
  ghost predicate DeletesResume(cfg: MaybeConfig, username: string, start: World, removed: seq<SnapshotEntry>,
                                met: seq<Fault>, now: World, rest: seq<SnapshotEntry>) {
    forall s: seq<Fault> :: DeleteLoop(cfg, username, start, removed, met + s)
      == DeleteLoop(cfg, username, now, rest, s)
  }

  ghost predicate UpsertsResume(cfg: MaybeConfig, username: string, start: World, added: seq<CallbackRoute>,
                                met: seq<UpsertFault>, now: World, rest: seq<CallbackRoute>) {
    forall s: seq<UpsertFault> :: UpsertLoop(cfg, username, start, added, met + s)
      == UpsertLoop(cfg, username, now, rest, s)
  }

  lemma DeletesStart(cfg: MaybeConfig, username: string, start: World, removed: seq<SnapshotEntry>)
    ensures DeletesResume(cfg, username, start, removed, [], start, removed)
  {
    hide DeleteLoop;
    forall s: seq<Fault>
      ensures DeleteLoop(cfg, username, start, removed, [] + s) == DeleteLoop(cfg, username, start, removed, s)
    {
      assert [] + s == s;
    }
  }

  lemma DeleteSkips(cfg: MaybeConfig, username: string, start: World, removed: seq<SnapshotEntry>, met: seq<Fault>,
                    now: World, rest: seq<SnapshotEntry>)
    requires DeletesResume(cfg, username, start, removed, met, now, rest) && rest != [] && rest[0].routeId == ""
    ensures DeletesResume(cfg, username, start, removed, met, now, rest[1..])
  {
    forall s: seq<Fault>
      ensures DeleteLoop(cfg, username, start, removed, met + s) == DeleteLoop(cfg, username, now, rest[1..], s)
    {
      assert DeleteLoop(cfg, username, start, removed, met + s) == DeleteLoop(cfg, username, now, rest, s);
    }
  }

  lemma DeleteCalls(cfg: MaybeConfig, username: string, start: World, removed: seq<SnapshotEntry>, met: seq<Fault>,
                    now: World, rest: seq<SnapshotEntry>, f: Fault)
    requires DeletesResume(cfg, username, start, removed, met, now, rest) && rest != [] && rest[0].routeId != ""
    ensures var d := RemoteDelete(cfg, username, now.db, rest[0].routeId, f);
      if d.ok then
        DeletesResume(cfg, username, start, removed, met + [f],
                      now.(db := d.db, snap := now.snap - {EntryKey(rest[0])}), rest[1..])
      else DeleteLoop(cfg, username, start, removed, met + [f]) == Stage(now.(db := d.db), false)
  {
    hide RemoteDelete, EntryKey;
    var d := RemoteDelete(cfg, username, now.db, rest[0].routeId, f);
    assert DeleteLoop(cfg, username, start, removed, met + [f]) == DeleteLoop(cfg, username, now, rest, [f]);
    if d.ok {
      var next := now.(db := d.db, snap := now.snap - {EntryKey(rest[0])});
      forall s: seq<Fault>
        ensures DeleteLoop(cfg, username, start, removed, met + [f] + s)
          == DeleteLoop(cfg, username, next, rest[1..], s)
      {
        assert met + [f] + s == met + ([f] + s) && ([f] + s)[1..] == s;
        assert DeleteLoop(cfg, username, start, removed, met + ([f] + s))
          == DeleteLoop(cfg, username, now, rest, [f] + s);
      }
    }
  }

  lemma DeletesEnd(cfg: MaybeConfig, username: string, start: World, removed: seq<SnapshotEntry>,
      met: seq<Fault>, now: World)
    requires DeletesResume(cfg, username, start, removed, met, now, [])
    ensures DeleteLoop(cfg, username, start, removed, met) == Stage(now, true)
  {
    assert met + [] == met;
    assert DeleteLoop(cfg, username, start, removed, met + []) == DeleteLoop(cfg, username, now, [], []);
  }

  lemma UpsertsStart(cfg: MaybeConfig, username: string, start: World, added: seq<CallbackRoute>)
    ensures UpsertsResume(cfg, username, start, added, [], start, added)
  {
    hide UpsertLoop;
    forall s: seq<UpsertFault>
      ensures UpsertLoop(cfg, username, start, added, [] + s) == UpsertLoop(cfg, username, start, added, s)
    {
      assert [] + s == s;
    }
  }

  lemma UpsertCalls(cfg: MaybeConfig, username: string, start: World, added: seq<CallbackRoute>, met: seq<UpsertFault>,
                    now: World, rest: seq<CallbackRoute>, f: UpsertFault)
    requires UpsertsResume(cfg, username, start, added, met, now, rest) && rest != []
    ensures var c, reply := rest[0], RemoteUpsert(cfg, username, now.db, rest[0], f.remote);
      if reply.route.None? then UpsertLoop(cfg, username, start, added, met + [f]) == Stage(now.(db := reply.db), false)
      else
        var r := reply.route.value;
        var entries := SetCallback(now.entries, c, Url(r.hostname), r.localPort, f.writer, f.asNumber);
        if f.writer != Written then
          UpsertLoop(cfg, username, start, added, met + [f]) == Stage(now.(db := reply.db, entries := entries), false)
        else UpsertsResume(cfg, username, start, added, met + [f],
                           World(reply.db, entries, now.snap[KeyOf(c) := PublishedEntry(c, r)]), rest[1..])
  {
    hide RemoteUpsert, SetCallback, KeyOf, PublishedEntry, Url;
    var c, reply := rest[0], RemoteUpsert(cfg, username, now.db, rest[0], f.remote);
    assert UpsertLoop(cfg, username, start, added, met + [f]) == UpsertLoop(cfg, username, now, rest, [f]);
    if reply.route.Some? && f.writer == Written {
      var r := reply.route.value;
      var entries := SetCallback(now.entries, c, Url(r.hostname), r.localPort, f.writer, f.asNumber);
      var next := World(reply.db, entries, now.snap[KeyOf(c) := PublishedEntry(c, r)]);
      forall s: seq<UpsertFault>
        ensures UpsertLoop(cfg, username, start, added, met + [f] + s) == UpsertLoop(cfg, username, next, rest[1..], s)
      {
        assert met + [f] + s == met + ([f] + s) && ([f] + s)[1..] == s;
        assert UpsertLoop(cfg, username, start, added, met + ([f] + s))
          == UpsertLoop(cfg, username, now, rest, [f] + s);
      }
    }
  }

  lemma UpsertsEnd(cfg: MaybeConfig, username: string, start: World, added: seq<CallbackRoute>,
      met: seq<UpsertFault>, now: World)
    requires UpsertsResume(cfg, username, start, added, met, now, [])
    ensures UpsertLoop(cfg, username, start, added, met) == Stage(now, true)
  {
    assert met + [] == met;
    assert UpsertLoop(cfg, username, start, added, met + []) == UpsertLoop(cfg, username, now, [], []);
  }

  // ----- The service -----

  /** Some route ID is there to delete. */
  predicate HasCalls(removed: seq<SnapshotEntry>) {
    exists i :: 0 <= i < |removed| && removed[i].routeId != ""
  }

  function FaultAt(faults: seq<Fault>, i: nat): Fault { if i < |faults| then faults[i] else NoFault }

  function UpsertFaultAt(faults: seq<UpsertFault>, i: nat): UpsertFault { if i < |faults| then faults[i] else SMOOTH }

  /** The faults met are those given, but for publications that failed. */
  predicate DeletesHappened(met: seq<Fault>, given: seq<Fault>) {
    forall i :: 0 <= i < |met| ==> Happened(met[i], FaultAt(given, i))
  }

  predicate UpsertHappened(met: UpsertFault, given: UpsertFault) {
    Happened(met.remote, given.remote) && met == given.(remote := met.remote)
  }

  predicate UpsertsHappened(met: seq<UpsertFault>, given: seq<UpsertFault>) {
    forall i :: 0 <= i < |met| ==> UpsertHappened(met[i], UpsertFaultAt(given, i))
  }

  class Service {
    const username: string
    const client: RouteClient
    var entries: Entries
    var saved: Snapshot

    constructor (username: string, client: RouteClient, entries: Entries, saved: Snapshot)
      ensures this.username == username && this.client == client && this.entries == entries && this.saved == saved
    {
      this.username, this.client, this.entries, this.saved := username, client, entries, saved;
    }

    ghost function View(): World
      reads this, client.service.store
    {
      World(client.service.store.View(), entries, saved)
    }

    method WriteBack(c: CallbackRoute, url: string, port: int, f: WriterFault, asNumber: bool) returns (ok: bool)
      modifies this`entries
      ensures entries == SetCallback(old(entries), c, url, port, f, asNumber) && ok == f.Written?
    {
      if f == UrlFails { return false; }
      entries := ConfigSet(entries, c.urlKey, Str(url));
      if f == PortFails { return false; }
      entries := ConfigSet(entries, c.portKey, PortValue(port, asNumber));
      return true;
    }

    method DeleteRemoved(snap: Snapshot, removed: seq<SnapshotEntry>, faults: seq<Fault>, envs: nat -> Api.Env)
      returns (next: Snapshot, ok: bool, ghost met: seq<Fault>)
      requires client.Valid() && forall i :: client.Fits(envs(i))
      modifies client.service.store, client.service.publisher
      ensures client.Valid() && DeletesHappened(met, faults)
      ensures Stage(View().(snap := next), ok)
        == DeleteLoop(client.service.cfg, username, old(View()).(snap := snap), removed, met)
      ensures ok && HasCalls(removed) ==> client.InAgreement()
    {
      hide Api.Sound, RemoteDelete, EntryKey, DeletesResume, DeleteLoop, Api.Published;
      ghost var cfg, start := client.service.cfg, View().(snap := snap);
      next, met := snap, [];
      var calls: nat := 0;
      DeletesStart(cfg, username, start, removed);
      assert removed[0..] == removed;
      for i := 0 to |removed|
        invariant client.Valid() && |met| == calls && DeletesHappened(met, faults)
        invariant entries == old(entries) && saved == old(saved)
        invariant DeletesResume(cfg, username, start, removed, met, View().(snap := next), removed[i..])
        invariant HasCalls(removed[..i]) ==> client.InAgreement()
      {
        var e := removed[i];
        assert removed[i..][0] == e && removed[i..][1..] == removed[i + 1..];
        assert removed[..i + 1] == removed[..i] + [e];
        if e.routeId == "" {
          DeleteSkips(cfg, username, start, removed, met, View().(snap := next), removed[i..]);
          assert forall j :: 0 <= j < i + 1 && removed[..i + 1][j].routeId != "" ==> removed[..i][j].routeId != "";
          continue;
        }
        ghost var now := View().(snap := next);
        var f := if calls < |faults| then faults[calls] else NoFault;
        var deleted, fault := client.DeletePluginRoute(username, e.routeId, f, envs(calls));
        DeleteCalls(cfg, username, start, removed, met, now, removed[i..], fault);
        met := met + [fault];
        if !deleted { return next, false, met; }
        next := next - {EntryKey(e)};
        calls := calls + 1;
      }
      assert removed[|removed|..] == [] && removed[..|removed|] == removed;
      DeletesEnd(cfg, username, start, removed, met, View().(snap := next));
      return next, true, met;
    }

    method PublishStale(snap: Snapshot, added: seq<CallbackRoute>, faults: seq<UpsertFault>, envs: nat -> Api.Env)
      returns (next: Snapshot, ok: bool, ghost met: seq<UpsertFault>)
      requires client.Valid() && forall i :: client.Fits(envs(i))
      modifies client.service.store, client.service.publisher, this`entries
      ensures client.Valid() && UpsertsHappened(met, faults)
      ensures Stage(View().(snap := next), ok)
        == UpsertLoop(client.service.cfg, username, old(View()).(snap := snap), added, met)
      ensures ok && (added != [] || old(client.InAgreement())) ==> client.InAgreement()
    {
      hide Api.Sound, RemoteUpsert, SetCallback, KeyOf, PublishedEntry, Url, UpsertsResume, UpsertLoop, Api.Published;
      ghost var cfg, start := client.service.cfg, View().(snap := snap);
      next, met := snap, [];
      UpsertsStart(cfg, username, start, added);
      assert added[0..] == added;
      for i := 0 to |added|
        invariant client.Valid() && |met| == i && UpsertsHappened(met, faults)
        invariant saved == old(saved)
        invariant UpsertsResume(cfg, username, start, added, met, View().(snap := next), added[i..])
        invariant i > 0 || old(client.InAgreement()) ==> client.InAgreement()
      {
        var c := added[i];
        assert added[i..][0] == c && added[i..][1..] == added[i + 1..];
        ghost var now := View().(snap := next);
        var f := if i < |faults| then faults[i] else SMOOTH;
        var published, fault := client.UpsertPluginRoute(username, c, f.remote, envs(i));
        UpsertCalls(cfg, username, start, added, met, now, added[i..], f.(remote := fault));
        met := met + [f.(remote := fault)];
        if published.None? { return next, false, met; }
        var r := published.value;
        var written := WriteBack(c, Url(r.hostname), r.localPort, f.writer, f.asNumber);
        if !written { return next, false, met; }
        next := next[KeyOf(c) := PublishedEntry(c, r)];
      }
      assert added[|added|..] == [];
      UpsertsEnd(cfg, username, start, added, met, View().(snap := next));
      return next, true, met;
    }

    /** One synchronisation: it stops before the first call if the configuration or the snapshot
        cannot be read or a port is out of range; otherwise it is exactly the specified one for
        some order of the removed and of the stale entries and for the given faults, to which only
        failed publications are added. If it succeeds and made a call, store, file and tunnel agree. */
    method Sync(o: Oracle, deleteEnvs: nat -> Api.Env, upsertEnvs: nat -> Api.Env)
      returns (ok: bool, ghost current: CallbackMap, ghost removedKeys: seq<string>,
               ghost staleKeys: seq<string>, ghost met: Oracle)
      requires client.Valid() && (forall i :: client.Fits(deleteEnvs(i))) && (forall i :: client.Fits(upsertEnvs(i)))
      modifies this, client.service.store, client.service.publisher
      ensures client.Valid()
      ensures !o.read || Broken(old(entries)) ==> !ok && View() == old(View())
      ensures o.read && !Broken(old(entries)) ==>
        && IsCurrent(current, old(entries)) && Orders(old(saved), current, removedKeys, staleKeys)
        && Stage(View(), ok)
          == SyncInOrder(client.service.cfg, username, old(View()), current, removedKeys, staleKeys, met)
        && met.read == o.read && met.save == o.save
        && DeletesHappened(met.deletes, o.deletes) && UpsertsHappened(met.upserts, o.upserts)
        && (ok && (staleKeys != [] || HasCalls(Pick(old(saved), removedKeys))) ==> client.InAgreement())
    {
      hide Api.Sound, Wanted, Broken, DeleteLoop, UpsertLoop, Enumerates, RemovedKeys, StaleKeys, KeyOf,
           Api.Published, HasCalls;
      current, removedKeys, staleKeys, met := map[], [], [], o.(deletes := [], upserts := []);
      if !o.read { return false, current, removedKeys, staleKeys, met; }
      var found := DiscoverCallbacks(entries);
      if found.Err? && found.error != NoCallbackRoutes {
        OutOfRangeIsBroken(entries, found.error);
        return false, current, removedKeys, staleKeys, met;
      }
      var routes := if found.Ok? then found.value else [];
      var diff, byKey, stale, removed, _ := DiffSnapshot(saved, routes);
      current, removedKeys, staleKeys := byKey, removed, stale;
      if found.Ok? { ListedIsCurrent(entries, routes, current); } else { NoneIsCurrent(entries, current); }
      var deleted, allDeleted, realDeletes := DeleteRemoved(saved, diff.removed, o.deletes, deleteEnvs);
      met := met.(deletes := realDeletes);
      if !allDeleted { return false, current, removedKeys, staleKeys, met; }
      var published, allPublished, realUpserts := PublishStale(deleted, diff.addedOrUpdated, o.upserts, upsertEnvs);
      met := met.(upserts := realUpserts);
      if !allPublished || !o.save { return false, current, removedKeys, staleKeys, met; }
      saved := published;
      return true, current, removedKeys, staleKeys, met;
    }
  }

  lemma OutOfRangeIsBroken(entries: Entries, e: DiscoverError)
    requires e.PortOutOfRange? && e.pluginId in entries && CallbackOf(e.pluginId, entries[e.pluginId]) == Err(e)
    ensures Broken(entries)
  {}

  /** The map built from a listing of the wanted callbacks is current. */
  lemma ListedIsCurrent(entries: Entries, routes: seq<CallbackRoute>, current: CallbackMap)
    requires ListsWanted(routes, entries)
    requires forall k :: k in current ==> current[k] in routes && KeyOf(current[k]) == k
    requires forall i :: 0 <= i < |routes| ==> KeyOf(routes[i]) in current
    ensures IsCurrent(current, entries)
  {
    hide Wanted, KeyOf;
  }

  lemma NoneIsCurrent(entries: Entries, current: CallbackMap)
    requires Wanted(entries) == map[] && current == map[]
    ensures IsCurrent(current, entries)
  {}

  // ----- From the configuration to the tunnel -----

  /** The port to which the loaded configuration sends a hostname. */
  ghost function Answer(sys: Api.System, hostname: string): Option<nat>
    requires Ingress.ParseConfig(sys.host.loaded).Some?
  {
    Ingress.Lookup(Ingress.ParseConfig(sys.host.loaded).value.rules, hostname)
  }

  /** The loaded configuration answers for the hostname of a row exactly if the row is enabled, and then
      with its port. */
  lemma RowAnswers(sv: Api.Service, sys: Api.System, id: string)
    requires sv.publisher.Some? && Api.Published(sv, sys) && UniqueHostnames(sys.db.routes) && id in sys.db.routes
    ensures Answer(sys, sys.db.routes[id].hostname)
      == if sys.db.routes[id].enabled then Some(sys.db.routes[id].localPort) else None
  {
    var row := sys.db.routes[id];
    assert Ingress.Serves(sys.db.routes, row.hostname, Answer(sys, row.hostname));
    hide Ingress.Lookup, Ingress.ParseConfig;
  }

  /** After any synchronisation that succeeds, whatever it met, with the whole table published, the
      tunnel sends the hostname of every callback published anew to its port, unless another one shares
      the route and asks for another port. */
  lemma WantedCallbacksAreServed(sv: Api.Service, sys: Api.System, username: string, w: World, current: CallbackMap,
                                 r: Round, k: string)
    requires sv.publisher.Some? && Api.Published(sv, sys) && Home(sv.cfg, username, w.db)
    requires Orders(w.snap, current, r.removedKeys, r.staleKeys) && Perform(sv.cfg, username, w, current, r).ok
    requires sys.db == Perform(sv.cfg, username, w, current, r).world.db
    requires k in StaleKeys(w.snap, current) && Agreeing(username, current, StaleKeys(w.snap, current))
    ensures HasDomain(sv.cfg)
    ensures Answer(sys, HostOf(sv.cfg, username, current[k].hostnameHint)) == Some(current[k].localPort)
  {
    HomeFacts(sv.cfg, username, w.db);
    hide Home, Stale, SyncInOrder, Orders, WantedId, HasDomain, HostOf, Api.Published, ValidUsername, UniqueHostnames,
         WantedRow, Answer, IsRemoved;
    var c, id := current[k], WantedId(username, current[k]);
    SuccessRow(sv.cfg, username, w, current, r.removedKeys, r.staleKeys, r.oracle, id);
    SyncKeepsHome(sv.cfg, username, w, current, r.removedKeys, r.staleKeys, r.oracle);
    assert IsWantedAnew(username, w.snap, current, id);
    var l :| l in StaleKeys(w.snap, current) && IsRowOf(sv.cfg, username, sys.db, current[l], id);
    assert Agree(username, current[k], current[l]);
    PublishedRowAnswers(sv, sys, username, current[l]);
    SharedHost(sv.cfg, username, c, current[l]);
  }

  lemma PublishedRowAnswers(sv: Api.Service, sys: Api.System, username: string, c: CallbackRoute)
    requires sv.publisher.Some? && Api.Published(sv, sys) && Home(sv.cfg, username, sys.db)
    requires IsRowOf(sv.cfg, username, sys.db, c, WantedId(username, c))
    ensures Answer(sys, HostOf(sv.cfg, username, c.hostnameHint)) == Some(c.localPort)
  {
    WantedRowShape(sv.cfg, username, c);
    WantedHostname(sv.cfg, username, sys.db, c);
    assert UniqueHostnames(sys.db.routes);
    hide Home, WantedId, HasDomain, HostOf, Api.Published, UniqueHostnames, Answer;
    RowAnswers(sv, sys, WantedId(username, c));
  }

  lemma SharedHost(cfg: MaybeConfig, username: string, c: CallbackRoute, d: CallbackRoute)
    requires ValidUsername(username) && HasDomain(cfg) && WantedId(username, c) == WantedId(username, d)
    ensures HostOf(cfg, username, c.hostnameHint) == HostOf(cfg, username, d.hostnameHint)
  {
    hide Slug, ValidUsername, HasDomain, WantedId;
    SharedRoute(username, c, d);
  }

  /** When the table is in step and published, the tunnel answers for the hostname of each wanted
      callback with the port it asks for, exactly if its route is enabled. */
  lemma InStepIsServed(sv: Api.Service, sys: Api.System, username: string, current: CallbackMap, k: string)
    requires sv.publisher.Some? && Api.Published(sv, sys) && Home(sv.cfg, username, sys.db)
    requires InStep(username, sys.db, current) && k in current
    ensures HasDomain(sv.cfg) && WantedId(username, current[k]) in sys.db.routes
    ensures Answer(sys, HostOf(sv.cfg, username, current[k].hostnameHint))
      == if sys.db.routes[WantedId(username, current[k])].enabled then Some(current[k].localPort) else None
  {
    HomeFacts(sv.cfg, username, sys.db);
    assert PortServed(username, sys.db, current[k]);
    assert UniqueHostnames(sys.db.routes);
    WantedHostname(sv.cfg, username, sys.db, current[k]);
    hide Home, WantedId, HasDomain, HostOf, Api.Published, UniqueHostnames, Answer, InStep, ValidUsername;
    RowAnswers(sv, sys, WantedId(username, current[k]));
  }
}
