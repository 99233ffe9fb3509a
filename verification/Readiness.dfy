/** Exactly when a synchronisation puts the table in step with the configuration, and what it saves. */
module Readiness {
  import opened Text
  import opened State
  import opened Identity
  import opened Callbacks
  import opened Watcher
  import opened Reconcile
  import Api

  // ----- Exactly when it puts the table in step -----

  predicate PortServed(username: string, db: Db, c: CallbackRoute) {
    WantedId(username, c) in db.routes && db.routes[WantedId(username, c)].localPort == c.localPort
  }

  /** The user's plugin rows are exactly the wanted ones, with the wanted ports. */
  predicate InStep(username: string, db: Db, current: CallbackMap) {
    && (forall id :: id in db.routes && Mine(username, db.routes[id]) ==> IsWanted(username, current, id))
    && (forall k :: k in current ==> PortServed(username, db, current[k]))
  }

  /** Every plugin row of the user belongs to a removed entry or to a wanted callback. */
  predicate Covered(username: string, db: Db, snap: Snapshot, current: CallbackMap) {
    forall id :: id in db.routes && Mine(username, db.routes[id]) ==>
          IsRemoved(snap, current, id) || IsWanted(username, current, id)
  }

  /** A callback that needs no publication has its row, with its port, and keeps it; or another
      callback that shares the route is published. */
  predicate KeptInPlace(username: string, db: Db, snap: Snapshot, current: CallbackMap) {
    forall k :: k in current && !Stale(snap, k, current[k]) ==> Kept(username, db, snap, current, current[k])
  }

  predicate Kept(username: string, db: Db, snap: Snapshot, current: CallbackMap, c: CallbackRoute) {
    || IsWantedAnew(username, snap, current, WantedId(username, c))
    || (!IsRemoved(snap, current, WantedId(username, c)) && PortServed(username, db, c))
  }

  /** No two callbacks of different routes share a slugged hint, and no row of anybody else, such as a
      user with the same slug, holds one. */
  predicate Clear(username: string, db: Db, current: CallbackMap) {
    && (forall k, l :: k in current && l in current ==> !Clash(username, current[k], current[l]))
    && (forall x, k :: x in db.routes && k in current && !Mine(username, db.routes[x]) ==>
          !Api.HoldsHint(db, x, username, Slug(current[k].hostnameHint)))
  }

  /** The start from which a synchronisation puts the table in step. */
  predicate Ready(username: string, db: Db, snap: Snapshot, current: CallbackMap) {
    && RemovedInPlace(username, db, snap, current) && Covered(username, db, snap, current)
    && KeptInPlace(username, db, snap, current) && Servable(username, db, snap, current)
  }

  /** What the configuration asks for can be served beside the rows of others. */
  predicate Servable(username: string, db: Db, snap: Snapshot, current: CallbackMap) {
    && Clear(username, db, current) && Agreeing(username, current, current.Keys)
    && forall k :: k in StaleKeys(snap, current) ==> Publishable(current[k])
  }

  lemma ReadyIsUnobstructed(cfg: MaybeConfig, username: string, db: Db, snap: Snapshot, current: CallbackMap)
    requires Home(cfg, username, db) && Ready(username, db, snap, current)
    ensures Unobstructed(username, db, snap, current)
  {
    hide Home, RemovedInPlace, KeptInPlace, Agreeing, Publishable, Blocked, Stale, WantedId, Slug, Mine, IsRemoved;
    forall k, x ensures !Blocked(username, db, snap, current, k, x) {
      if Blocked(username, db, snap, current, k, x) { ReadyHoldsNothing(cfg, username, db, snap, current, k, x); }
    }
  }

  lemma ReadyHoldsNothing(cfg: MaybeConfig, username: string, db: Db, snap: Snapshot, current: CallbackMap,
                          k: string, x: string)
    requires Home(cfg, username, db) && Covered(username, db, snap, current) && Clear(username, db, current)
    ensures !Blocked(username, db, snap, current, k, x)
  {
    hide Home, Stale, WantedId, Slug, Mine, IsRemoved, Api.HoldsHint;
    if Blocked(username, db, snap, current, k, x) {
      assert Mine(username, db.routes[x]) && IsWanted(username, current, x);
      var l :| l in current && WantedId(username, current[l]) == x;
      WantedIdHolds(cfg, username, db, current[l], Slug(current[k].hostnameHint));
    }
  }

  /** A success from a ready start serves every callback and nothing else. */
  lemma ReadyEndsInStep(cfg: MaybeConfig, username: string, w: World, current: CallbackMap,
                        removedKeys: seq<string>, staleKeys: seq<string>, o: Oracle)
    requires Home(cfg, username, w.db) && Orders(w.snap, current, removedKeys, staleKeys)
    requires SyncInOrder(cfg, username, w, current, removedKeys, staleKeys, o).ok
    requires Ready(username, w.db, w.snap, current)
    ensures InStep(username, SyncInOrder(cfg, username, w, current, removedKeys, staleKeys, o).world.db, current)
  {
    hide Home, SyncInOrder, RemovedInPlace, Clear, Publishable, Stale, WantedId, Mine, IsRemoved, Orders,
         IsWantedAnew, WrittenFor, SameRow, PortServed, Agree;
    var after := SyncInOrder(cfg, username, w, current, removedKeys, staleKeys, o).world.db;
    forall id | id in after.routes && Mine(username, after.routes[id]) ensures IsWanted(username, current, id) {
      SuccessRow(cfg, username, w, current, removedKeys, staleKeys, o, id);
      if IsWantedAnew(username, w.snap, current, id) { AnewIsWanted(username, w.snap, current, id); }
      else { SameRowMine(username, w.db, after, id); }
    }
    forall k | k in current ensures PortServed(username, after, current[k]) {
      var id := WantedId(username, current[k]);
      SuccessRow(cfg, username, w, current, removedKeys, staleKeys, o, id);
      if IsWantedAnew(username, w.snap, current, id) {
        WrittenServes(cfg, username, after, w.snap, current, k);
      } else {
        NotAnewIsKept(username, w.db, w.snap, current, k);
        SameRowServes(username, w.db, after, current[k]);
      }
    }
  }

  lemma AnewIsWanted(username: string, snap: Snapshot, current: CallbackMap, id: string)
    requires IsWantedAnew(username, snap, current, id)
    ensures IsWanted(username, current, id)
  {
    hide Stale, WantedId;
  }

  lemma SameRowMine(username: string, a: Db, b: Db, id: string)
    requires SameRow(a, b, id)
    ensures id in b.routes && Mine(username, b.routes[id]) <==> id in a.routes && Mine(username, a.routes[id])
  {
    hide Mine;
  }

  lemma SameRowServes(username: string, a: Db, b: Db, c: CallbackRoute)
    requires SameRow(a, b, WantedId(username, c))
    ensures PortServed(username, a, c) <==> PortServed(username, b, c)
  {
    hide WantedId;
  }

  lemma NotAnewIsKept(username: string, db: Db, snap: Snapshot, current: CallbackMap, k: string)
    requires KeptInPlace(username, db, snap, current) && k in current
    requires !IsWantedAnew(username, snap, current, WantedId(username, current[k]))
    ensures !IsRemoved(snap, current, WantedId(username, current[k])) && PortServed(username, db, current[k])
  {
    hide IsRemoved, WantedId, PortServed;
    assert Stale(snap, k, current[k]) ==> k in StaleKeys(snap, current);
    hide Stale;
  }

  lemma WrittenServes(cfg: MaybeConfig, username: string, db: Db, snap: Snapshot, current: CallbackMap, k: string)
    requires k in current && WrittenFor(cfg, username, db, snap, current, WantedId(username, current[k]))
    requires Agreeing(username, current, current.Keys)
    ensures PortServed(username, db, current[k])
  {
    hide WantedId, WantedRow, Stale, HasDomain;
    var l :| l in StaleKeys(snap, current) && IsRowOf(cfg, username, db, current[l], WantedId(username, current[k]));
    WantedRowShape(cfg, username, current[l]);
    assert Agree(username, current[k], current[l]);
  }

  /** A row that holds a hint has the hostname of that hint. */
  lemma HolderHostname(cfg: MaybeConfig, username: string, db: Db, x: string, hint: string)
    requires Home(cfg, username, db) && x in db.routes && Api.HoldsHint(db, x, username, Slug(hint)) && HasDomain(cfg)
    ensures db.routes[x].hostname == HostOf(cfg, username, hint)
  {
    hide Integrity, WellNamed, ValidUsername, DecodeRouteId, Slug;
    RowFacts(cfg, db, x);
    Api.UserFacts(cfg, db, db.routes[x].username);
    Api.UserFacts(cfg, db, username);
  }

  lemma WantedHostname(cfg: MaybeConfig, username: string, db: Db, c: CallbackRoute)
    requires Home(cfg, username, db) && HasDomain(cfg) && WantedId(username, c) in db.routes
    ensures db.routes[WantedId(username, c)].hostname == HostOf(cfg, username, c.hostnameHint)
  {
    hide Home, DecodeRouteId, Slug, WantedId, HasDomain;
    WantedIdHolds(cfg, username, db, c, Slug(c.hostnameHint));
    HolderHostname(cfg, username, db, WantedId(username, c), c.hostnameHint);
  }

  lemma HostnamesDiffer(cfg: MaybeConfig, username: string, db: Db, x: string, y: string)
    requires Home(cfg, username, db) && x in db.routes && y in db.routes && x != y
    ensures db.routes[x].hostname != db.routes[y].hostname
  {
    assert UniqueHostnames(db.routes);
  }

  /** Clashing or held hints cannot be served, so what ends in step started clear. */
  lemma InStepIsClear(cfg: MaybeConfig, username: string, before: Db, after: Db, current: CallbackMap)
    requires Home(cfg, username, before) && Home(cfg, username, after) && OthersSame(username, before, after)
    requires InStep(username, after, current)
    ensures Clear(username, before, current)
  {
    hide Home, Slug, Mine, Api.HoldsHint, WantedId, HasDomain, Clash, PortServed, OthersSame;
    HomeFacts(cfg, username, after);
    forall k, l | k in current && l in current ensures !Clash(username, current[k], current[l]) {
      ServedHintsDiffer(cfg, username, after, current[k], current[l]);
    }
    forall x, k | x in before.routes && k in current && !Mine(username, before.routes[x])
      ensures !Api.HoldsHint(before, x, username, Slug(current[k].hostnameHint))
    {
      ServedHintIsUnheld(cfg, username, before, after, current[k], x);
    }
  }

  lemma ServedHintsDiffer(cfg: MaybeConfig, username: string, after: Db, c: CallbackRoute, d: CallbackRoute)
    requires Home(cfg, username, after) && PortServed(username, after, c) && PortServed(username, after, d)
    ensures !Clash(username, c, d)
  {
    hide Home, Slug, HasDomain, ValidUsername, WantedId;
    HomeFacts(cfg, username, after);
    WantedHostname(cfg, username, after, c);
    WantedHostname(cfg, username, after, d);
    if Clash(username, c, d) {
      HostnamesDiffer(cfg, username, after, WantedId(username, c), WantedId(username, d));
    }
  }

  lemma ServedHintIsUnheld(cfg: MaybeConfig, username: string, before: Db, after: Db, c: CallbackRoute, x: string)
    requires Home(cfg, username, before) && Home(cfg, username, after) && OthersSame(username, before, after)
    requires Stays(username, before, x) && PortServed(username, after, c)
    ensures !Api.HoldsHint(before, x, username, Slug(c.hostnameHint))
  {
    assert OtherSame(username, before, after, x);
    hide Home, Slug, HasDomain, WantedId, Mine, Api.HoldsHint, OthersSame;
    HomeFacts(cfg, username, after);
    WantedHostname(cfg, username, after, c);
    WantedIdIsMine(cfg, username, after, c);
    HostnamesDiffer(cfg, username, after, x, WantedId(username, c));
    if Api.HoldsHint(before, x, username, Slug(c.hostnameHint)) {
      HolderHostname(cfg, username, before, x, c.hostnameHint);
    }
  }

  /** A success that ends in step started ready. */
  lemma InStepWasReady(cfg: MaybeConfig, username: string, w: World, current: CallbackMap,
                       removedKeys: seq<string>, staleKeys: seq<string>, o: Oracle)
    requires Home(cfg, username, w.db) && Orders(w.snap, current, removedKeys, staleKeys)
    requires SyncInOrder(cfg, username, w, current, removedKeys, staleKeys, o).ok
    requires InStep(username, SyncInOrder(cfg, username, w, current, removedKeys, staleKeys, o).world.db, current)
    ensures Ready(username, w.db, w.snap, current)
  {
    hide Home, SyncInOrder, RemovedInPlace, Clear, Publishable, Stale, Mine, IsRemoved, Orders, Blocked,
         IsWantedAnew, IsWanted, WrittenFor, SameRow, PortServed, Clash, OthersSame, RowBetween, Kept, Agree;
    var after := SyncInOrder(cfg, username, w, current, removedKeys, staleKeys, o).world.db;
    SuccessIsExact(cfg, username, w, current, removedKeys, staleKeys, o);
    SyncStaysBetween(cfg, username, w, current, removedKeys, staleKeys, o);
    InStepIsClear(cfg, username, w.db, after, current);
    forall id | id in w.db.routes && Mine(username, w.db.routes[id])
      ensures IsRemoved(w.snap, current, id) || IsWanted(username, current, id)
    {
      SuccessRow(cfg, username, w, current, removedKeys, staleKeys, o, id);
      if IsWantedAnew(username, w.snap, current, id) { AnewIsWanted(username, w.snap, current, id); }
      else if !IsRemoved(w.snap, current, id) { SameRowMine(username, w.db, after, id); }
    }
    forall k | k in current && !Stale(w.snap, k, current[k]) ensures Kept(username, w.db, w.snap, current, current[k]) {
      SuccessRow(cfg, username, w, current, removedKeys, staleKeys, o, WantedId(username, current[k]));
      ServedIsKept(username, w.db, after, w.snap, current, current[k]);
    }
    forall k, l | k in current && l in current ensures Agree(username, current[k], current[l]) {
      ServedAgree(username, after, current[k], current[l]);
    }
  }

  lemma ServedIsKept(username: string, before: Db, after: Db, snap: Snapshot, current: CallbackMap, c: CallbackRoute)
    requires var id := WantedId(username, c);
      || IsWantedAnew(username, snap, current, id)
      || if IsRemoved(snap, current, id) then id !in after.routes else SameRow(before, after, id)
    requires PortServed(username, after, c)
    ensures Kept(username, before, snap, current, c)
  {
    hide IsWantedAnew, IsRemoved, WantedId;
  }

  lemma ServedAgree(username: string, db: Db, c: CallbackRoute, d: CallbackRoute)
    requires PortServed(username, db, c) && PortServed(username, db, d)
    ensures Agree(username, c, d)
  {
    hide WantedId;
  }

  /** From any reachable tables, with any snapshot and any configuration, a faultless synchronisation
      in any order succeeds and puts the table in step exactly from a ready start. */
  lemma FaultlessIsExact(cfg: MaybeConfig, username: string, w: World, current: CallbackMap,
                         removedKeys: seq<string>, staleKeys: seq<string>, o: Oracle)
    requires Home(cfg, username, w.db) && Orders(w.snap, current, removedKeys, staleKeys) && Faultless(o)
    ensures var s := SyncInOrder(cfg, username, w, current, removedKeys, staleKeys, o);
      s.ok && InStep(username, s.world.db, current) <==> Ready(username, w.db, w.snap, current)
  {
    hide Home, SyncInOrder, Ready, InStep, Faultless, Orders, Unobstructed;
    SuccessIsExact(cfg, username, w, current, removedKeys, staleKeys, o);
    if Ready(username, w.db, w.snap, current) {
      ReadyIsUnobstructed(cfg, username, w.db, w.snap, current);
      ReadyEndsInStep(cfg, username, w, current, removedKeys, staleKeys, o);
    }
    var s := SyncInOrder(cfg, username, w, current, removedKeys, staleKeys, o);
    if s.ok && InStep(username, s.world.db, current) {
      InStepWasReady(cfg, username, w, current, removedKeys, staleKeys, o);
    }
  }

  // ----- The saved snapshot -----

  /** The entry names the route that publishing its callback writes. */
  predicate NamesItsRoute(cfg: MaybeConfig, username: string, e: SnapshotEntry) {
    && HasDomain(cfg) && Without(e.pluginId, NUL)
    && e.routeId == PluginRouteId(username, Slug(e.pluginId), Slug(e.hostnameHint))
    && e.url == Url(HostOf(cfg, username, e.hostnameHint))
  }

  /** Every entry is filed under its key and names its route. */
  predicate Tracked(cfg: MaybeConfig, username: string, snap: Snapshot) {
    HasDomain(cfg) && forall k :: k in snap ==> EntryKey(snap[k]) == k && NamesItsRoute(cfg, username, snap[k])
  }

  lemma SameKeySameParts(e: SnapshotEntry, c: CallbackRoute)
    requires Without(e.pluginId, NUL) && Without(c.pluginId, NUL) && EntryKey(e) == KeyOf(c)
    ensures e.pluginId == c.pluginId && e.hostnameHint == c.hostnameHint
  {
    FirstPieceUnique(e.pluginId, c.pluginId, NUL, e.hostnameHint, c.hostnameHint);
  }

  lemma RouteIdIsNotEmpty(cfg: MaybeConfig, username: string, e: SnapshotEntry)
    requires NamesItsRoute(cfg, username, e)
    ensures e.routeId != ""
  {
    assert e.routeId[0] == 'p';
  }

  /** An entry that needs no publication names the route of its callback. */
  lemma KeptEntry(cfg: MaybeConfig, username: string, snap: Snapshot, current: CallbackMap, k: string)
    requires Tracked(cfg, username, snap) && Keyed(current) && k in current && k in snap
    ensures snap[k].routeId == WantedId(username, current[k])
    ensures !Stale(snap, k, current[k]) ==> snap[k] == PublishedEntry(current[k], WantedRow(cfg, username, current[k]))
  {
    assert NamesItsRoute(cfg, username, snap[k]) && EntryKey(snap[k]) == k;
    SameKeySameParts(snap[k], current[k]);
  }

  lemma TrackedIdsAreNotEmpty(cfg: MaybeConfig, username: string, snap: Snapshot, keys: seq<string>)
    requires Tracked(cfg, username, snap) && forall i :: 0 <= i < |keys| ==> keys[i] in snap
    ensures forall i :: 0 <= i < |keys| ==> Pick(snap, keys)[i].routeId != ""
  {
    hide NamesItsRoute, EntryKey, HasDomain;
    forall i | 0 <= i < |keys| ensures Pick(snap, keys)[i].routeId != "" {
      RouteIdIsNotEmpty(cfg, username, snap[keys[i]]);
    }
  }

  lemma PickedKeys(cfg: MaybeConfig, username: string, snap: Snapshot, current: CallbackMap, keys: seq<string>)
    requires Tracked(cfg, username, snap) && Enumerates(keys, RemovedKeys(snap, current))
    ensures EntryKeys(Pick(snap, keys)) == RemovedKeys(snap, current)
  {
    hide NamesItsRoute, EntryKey, HasDomain;
    forall k | k in RemovedKeys(snap, current) ensures k in EntryKeys(Pick(snap, keys)) {
      var i :| 0 <= i < |keys| && keys[i] == k;
      assert Pick(snap, keys)[i] in Pick(snap, keys);
    }
  }

  /** A synchronisation that succeeds, whatever the table holds and whatever it met, saves exactly one
      published entry for each wanted callback. */
  lemma SuccessSavesTheWanted(cfg: MaybeConfig, username: string, w: World, current: CallbackMap,
                              removedKeys: seq<string>, staleKeys: seq<string>, o: Oracle)
    requires Tracked(cfg, username, w.snap) && Keyed(current) && Orders(w.snap, current, removedKeys, staleKeys)
    requires SyncInOrder(cfg, username, w, current, removedKeys, staleKeys, o).ok
    ensures HasDomain(cfg)
    ensures SyncInOrder(cfg, username, w, current, removedKeys, staleKeys, o).world.snap
      == SnapshotOf(cfg, username, current)
  {
    assert HasDomain(cfg);
    hide Keyed, Tracked, SyncInOrder, DeleteLoop, UpsertLoop, EntryMap, EntryKeys, SnapshotOf, HasDomain, Stale;
    SyncEnds(cfg, username, w, current, removedKeys, staleKeys, o);
    TrackedIdsAreNotEmpty(cfg, username, w.snap, removedKeys);
    PickedKeys(cfg, username, w.snap, current, removedKeys);
    var removed, added := Pick(w.snap, removedKeys), Pick(current, staleKeys);
    DeleteLoopCutsEntries(cfg, username, w, removed, o.deletes);
    UpsertLoopFiles(cfg, username, Deletes(cfg, username, w, current, removedKeys, o).world, added, o.upserts);
    FiledIsWhole(cfg, username, w.snap, current, staleKeys);
  }

  /** What is kept and what is filed anew together are one published entry for each wanted callback. */
  lemma FiledIsWhole(cfg: MaybeConfig, username: string, snap: Snapshot, current: CallbackMap, staleKeys: seq<string>)
    requires Tracked(cfg, username, snap) && Keyed(current) && Enumerates(staleKeys, StaleKeys(snap, current))
    ensures snap - RemovedKeys(snap, current) + EntryMap(cfg, username, Pick(current, staleKeys))
      == SnapshotOf(cfg, username, current)
  {
    assert HasDomain(cfg);
    hide Tracked, Keyed, Stale, EntryMap, HasDomain, Enumerates, Pick, SnapshotOf;
    FiledEntries(cfg, username, snap, current, staleKeys);
    KeptEntries(cfg, username, snap, current);
    CutAndPutCompletes(snap, current, EntryMap(cfg, username, Pick(current, staleKeys)), SnapshotOf(cfg,
        username, current));
  }

  lemma FiledEntries(cfg: MaybeConfig, username: string, snap: Snapshot, current: CallbackMap, staleKeys: seq<string>)
    requires HasDomain(cfg) && Keyed(current) && Enumerates(staleKeys, StaleKeys(snap, current))
    ensures var filed, whole := EntryMap(cfg, username, Pick(current, staleKeys)), SnapshotOf(cfg, username, current);
      filed.Keys == StaleKeys(snap, current) && forall k :: k in filed ==> k in whole && filed[k] == whole[k]
  {
    hide Keyed, Stale, KeyOf, EntryMap, PublishedEntry, WantedRow, HasDomain, Enumerates, Pick;
    KeyedKeys(current);
    PutEntriesAreStale(cfg, username, snap, current, staleKeys);
  }

  lemma KeptEntries(cfg: MaybeConfig, username: string, snap: Snapshot, current: CallbackMap)
    requires Tracked(cfg, username, snap) && Keyed(current)
    ensures HasDomain(cfg)
    ensures var whole := SnapshotOf(cfg, username, current);
      && whole.Keys == current.Keys
      && forall k :: k in current && !Stale(snap, k, current[k]) ==> k in snap && snap[k] == whole[k]
  {
    assert HasDomain(cfg);
    hide Tracked, Keyed, Stale, PublishedEntry, WantedRow, HasDomain;
    forall k | k in current && !Stale(snap, k, current[k])
      ensures k in snap && snap[k] == PublishedEntry(current[k], WantedRow(cfg, username, current[k]))
    {
      NotStaleIsThere(snap, k, current[k]);
      KeptEntry(cfg, username, snap, current, k);
    }
  }

  lemma NotStaleIsThere(snap: Snapshot, k: string, c: CallbackRoute)
    requires !Stale(snap, k, c)
    ensures k in snap
  {}

  lemma KeyedKeys(current: CallbackMap)
    requires Keyed(current)
    ensures forall k :: k in current ==> KeyOf(current[k]) == k
  {}

  lemma StaleKeysDiffer(snap: Snapshot, current: CallbackMap, keys: seq<string>)
    requires Enumerates(keys, StaleKeys(snap, current)) && forall k :: k in current ==> KeyOf(current[k]) == k
    ensures var added := Pick(current, keys);
      && (forall i :: 0 <= i < |added| ==> KeyOf(added[i]) == keys[i])
      && forall i, j :: 0 <= i < j < |added| ==> KeyOf(added[i]) != KeyOf(added[j])
  {
    hide KeyOf, Stale;
  }

  lemma PutEntriesAreStale(cfg: MaybeConfig, username: string, snap: Snapshot, current: CallbackMap, keys: seq<string>)
    requires HasDomain(cfg) && Enumerates(keys, StaleKeys(snap, current))
    requires forall k :: k in current ==> KeyOf(current[k]) == k
    ensures var entries := EntryMap(cfg, username, Pick(current, keys));
      && entries.Keys == StaleKeys(snap, current)
      && forall k :: k in entries ==> entries[k] == PublishedEntry(current[k], WantedRow(cfg, username, current[k]))
  {
    hide WantedRow, PublishedEntry, Stale, EntryMap, KeyOf, HasDomain;
    var added := Pick(current, keys);
    var entries := EntryMap(cfg, username, added);
    StaleKeysDiffer(snap, current, keys);
    forall k | k in StaleKeys(snap, current)
      ensures k in entries && entries[k] == PublishedEntry(current[k], WantedRow(cfg, username, current[k]))
    {
      var i :| 0 <= i < |keys| && keys[i] == k;
      EntryMapAt(cfg, username, added, i);
    }
    forall k | k in entries ensures k in StaleKeys(snap, current) {
      var i := EntryMapFrom(cfg, username, added, k);
      assert keys[i] in StaleKeys(snap, current);
    }
  }

  /** Taking the removed entries out and putting the stale ones in completes the snapshot. */
  lemma CutAndPutCompletes(snap: Snapshot, current: CallbackMap, put: Snapshot, whole: Snapshot)
    requires put.Keys == StaleKeys(snap, current) && whole.Keys == current.Keys
    requires forall k :: k in put ==> put[k] == whole[k]
    requires forall k :: k in current && !Stale(snap, k, current[k]) ==> k in snap && snap[k] == whole[k]
    ensures snap - RemovedKeys(snap, current) + put == whole
  {
    hide Stale;
  }

  lemma SavedIsTracked(cfg: MaybeConfig, username: string, current: CallbackMap)
    requires HasDomain(cfg) && Keyed(current)
    ensures Tracked(cfg, username, SnapshotOf(cfg, username, current))
  {
    hide HasDomain, Slug;
    forall k | k in current
      ensures EntryKey(SnapshotOf(cfg, username, current)[k]) == k
        && NamesItsRoute(cfg, username, SnapshotOf(cfg, username, current)[k])
    {
      assert KeyOf(current[k]) == k;
    }
  }

  /** However it ends, a synchronisation leaves a tracked snapshot. */
  lemma SyncKeepsTracked(cfg: MaybeConfig, username: string, w: World, current: CallbackMap,
                         removedKeys: seq<string>, staleKeys: seq<string>, o: Oracle)
    requires Tracked(cfg, username, w.snap) && Keyed(current) && Orders(w.snap, current, removedKeys, staleKeys)
    ensures var s := SyncInOrder(cfg, username, w, current, removedKeys, staleKeys, o);
      Tracked(cfg, username, s.world.snap) && (!s.ok ==> s.world.snap == w.snap)
  {
    assert HasDomain(cfg);
    hide Tracked, Keyed, SyncInOrder, Deletes, Upserts, Orders, SnapshotOf, HasDomain;
    SyncEnds(cfg, username, w, current, removedKeys, staleKeys, o);
    if SyncInOrder(cfg, username, w, current, removedKeys, staleKeys, o).ok {
      SuccessSavesTheWanted(cfg, username, w, current, removedKeys, staleKeys, o);
      SavedIsTracked(cfg, username, current);
    }
  }

  lemma TrackedRowIsMine(cfg: MaybeConfig, username: string, db: Db, e: SnapshotEntry)
    requires Home(cfg, username, db) && NamesItsRoute(cfg, username, e) && e.routeId in db.routes
    ensures HasRow(username, db, e)
  {
    WantedIdIsMine(cfg, username, db, CallbackRoute(e.pluginId, e.hostnameHint, e.localPort, e.urlKey, e.portKey));
  }

  // ----- Mirroring -----

  /** The snapshot and the user's plugin rows describe each other, up to the enabled flag. */
  predicate Mirrors(cfg: MaybeConfig, username: string, db: Db, snap: Snapshot) {
    && Tracked(cfg, username, snap)
    && (forall k :: k in snap ==> IsThere(db, snap[k]))
    && (forall id :: id in db.routes && Mine(username, db.routes[id]) ==>
          exists k :: k in snap && snap[k].routeId == id)
  }

  predicate IsThere(db: Db, e: SnapshotEntry) {
    e.routeId in db.routes && db.routes[e.routeId].localPort == e.localPort
  }

  /** No two entries name the same route. */
  predicate AllApart(snap: Snapshot) {
    forall k, l :: k in snap && l in snap && k != l ==> snap[k].routeId != snap[l].routeId
  }

  lemma MirrorCovers(cfg: MaybeConfig, username: string, db: Db, snap: Snapshot, current: CallbackMap)
    requires Keyed(current) && Mirrors(cfg, username, db, snap)
    ensures Covered(username, db, snap, current)
  {
    hide Keyed, Tracked, WantedId, Mine, Stale, IsThere;
    forall id | id in db.routes && Mine(username, db.routes[id])
      ensures IsRemoved(snap, current, id) || IsWanted(username, current, id)
    {
      var k :| k in snap && snap[k].routeId == id;
      if k in current { KeptEntry(cfg, username, snap, current, k); } else { assert k in RemovedKeys(snap, current); }
    }
  }

  lemma MirrorRemoved(cfg: MaybeConfig, username: string, db: Db, snap: Snapshot, current: CallbackMap)
    requires Home(cfg, username, db) && Mirrors(cfg, username, db, snap) && AllApart(snap)
    ensures RemovedInPlace(username, db, snap, current)
  {
    hide Home, NamesItsRoute, HasRow, EntryKey, HasDomain;
    forall k | k in RemovedKeys(snap, current) ensures MayGo(username, db, snap[k]) {
      assert IsThere(db, snap[k]);
      TrackedRowIsMine(cfg, username, db, snap[k]);
    }
  }

  lemma MirrorKeeps(cfg: MaybeConfig, username: string, db: Db, snap: Snapshot, current: CallbackMap, k: string)
    requires Mirrors(cfg, username, db, snap) && AllApart(snap) && Keyed(current)
    requires k in current && !Stale(snap, k, current[k])
    ensures Kept(username, db, snap, current, current[k])
  {
    KeptEntry(cfg, username, snap, current, k);
    assert IsThere(db, snap[k]);
    hide Keyed, Tracked, WantedId, IsWantedAnew, WantedRow;
  }

  /** From a mirroring snapshot whose entries name different routes, the start is ready exactly for the
      configurations that can be served beside the rows of others. */
  lemma MirrorIsReady(cfg: MaybeConfig, username: string, db: Db, snap: Snapshot, current: CallbackMap)
    requires Home(cfg, username, db) && Mirrors(cfg, username, db, snap) && AllApart(snap) && Keyed(current)
    ensures Ready(username, db, snap, current) <==> Servable(username, db, snap, current)
  {
    hide Home, Mirrors, AllApart, Keyed, Covered, RemovedInPlace, Servable, Stale, Kept;
    MirrorRemoved(cfg, username, db, snap, current);
    MirrorCovers(cfg, username, db, snap, current);
    forall k | k in current && !Stale(snap, k, current[k]) ensures Kept(username, db, snap, current, current[k]) {
      MirrorKeeps(cfg, username, db, snap, current, k);
    }
  }

  /** What is in step is mirrored by the snapshot that was saved, whose entries name different routes
      exactly if no two callbacks share one. */
  lemma InStepMirrors(cfg: MaybeConfig, username: string, db: Db, current: CallbackMap)
    requires HasDomain(cfg) && Keyed(current) && InStep(username, db, current)
    ensures Mirrors(cfg, username, db, SnapshotOf(cfg, username, current))
    ensures AllApart(SnapshotOf(cfg, username, current)) <==> NoneShared(username, current)
  {
    hide Keyed, Tracked, WantedId, WantedRow, Mine, HasDomain;
    SavedIsTracked(cfg, username, current);
    var saved := SnapshotOf(cfg, username, current);
    forall k | k in current ensures saved[k].routeId == WantedId(username, current[k]) && IsThere(db, saved[k]) {
      WantedRowShape(cfg, username, current[k]);
      assert PortServed(username, db, current[k]);
    }
    forall id | id in db.routes && Mine(username, db.routes[id])
      ensures exists k :: k in saved && saved[k].routeId == id
    {
      var k :| k in current && WantedId(username, current[k]) == id;
      assert saved[k].routeId == id;
    }
  }

  predicate NoneShared(username: string, current: CallbackMap) {
    forall k, l :: k in current && l in current && k != l ==>
          WantedId(username, current[k]) != WantedId(username, current[l])
  }

  /** From a ready start, a synchronisation that succeeds, with whatever it met, serves exactly the
      wanted callbacks, leaves the rows of others, and saves a snapshot that mirrors the table, every
      entry synced; without faults it does succeed. */
  lemma SyncReconciles(cfg: MaybeConfig, username: string, w: World, current: CallbackMap,
                       removedKeys: seq<string>, staleKeys: seq<string>, o: Oracle)
    requires Home(cfg, username, w.db) && Tracked(cfg, username, w.snap) && Keyed(current)
    requires Orders(w.snap, current, removedKeys, staleKeys) && Ready(username, w.db, w.snap, current)
    ensures HasDomain(cfg)
    ensures var s := SyncInOrder(cfg, username, w, current, removedKeys, staleKeys, o);
      && (Faultless(o) ==> s.ok)
      && (s.ok ==>
            && InStep(username, s.world.db, current) && OthersSame(username, w.db, s.world.db)
            && s.world.snap == SnapshotOf(cfg, username, current)
            && Mirrors(cfg, username, s.world.db, s.world.snap)
            && (AllApart(s.world.snap) <==> NoneShared(username, current))
            && forall k :: k in s.world.snap ==> s.world.snap[k].synced && s.world.snap[k].routeId != "")
  {
    HomeFacts(cfg, username, w.db);
    hide Home, SyncInOrder, Ready, InStep, Faultless, Orders, Tracked, Keyed, Mirrors, OthersSame, SnapshotOf,
         Unobstructed, HasDomain, ValidUsername, AllApart, NoneShared, RowBetween;
    ReadyIsUnobstructed(cfg, username, w.db, w.snap, current);
    SuccessIsExact(cfg, username, w, current, removedKeys, staleKeys, o);
    var s := SyncInOrder(cfg, username, w, current, removedKeys, staleKeys, o);
    if s.ok {
      ReadyEndsInStep(cfg, username, w, current, removedKeys, staleKeys, o);
      SyncStaysBetween(cfg, username, w, current, removedKeys, staleKeys, o);
      SuccessSavesTheWanted(cfg, username, w, current, removedKeys, staleKeys, o);
      InStepMirrors(cfg, username, s.world.db, current);
      SavedIsSynced(cfg, username, current);
    }
  }

  lemma SavedIsSynced(cfg: MaybeConfig, username: string, current: CallbackMap)
    requires HasDomain(cfg)
    ensures var saved := SnapshotOf(cfg, username, current);
      forall k :: k in saved ==> saved[k].synced && saved[k].routeId != ""
  {
    forall k | k in current ensures WantedRow(cfg, username, current[k]).id != "" {
      WantedRowShape(cfg, username, current[k]);
      assert WantedId(username, current[k])[0] == 'p';
    }
    hide WantedRow, HasDomain;
  }

  /** The same from a mirroring snapshot, for every configuration that can be served. */
  lemma SyncKeepsMirror(cfg: MaybeConfig, username: string, w: World, current: CallbackMap,
                        removedKeys: seq<string>, staleKeys: seq<string>, o: Oracle)
    requires Home(cfg, username, w.db) && Mirrors(cfg, username, w.db, w.snap) && AllApart(w.snap) && Keyed(current)
    requires Orders(w.snap, current, removedKeys, staleKeys) && Servable(username, w.db, w.snap, current)
    ensures var s := SyncInOrder(cfg, username, w, current, removedKeys, staleKeys, o);
      && (Faultless(o) ==> s.ok)
      && (s.ok ==>
            && InStep(username, s.world.db, current) && Mirrors(cfg, username, s.world.db, s.world.snap)
            && (AllApart(s.world.snap) <==> NoneShared(username, current)))
  {
    hide Home, SyncInOrder, InStep, Faultless, Orders, Keyed, Tracked, OthersSame, SnapshotOf, AllApart, NoneShared,
         Servable;
    MirrorIsReady(cfg, username, w.db, w.snap, current);
    SyncReconciles(cfg, username, w, current, removedKeys, staleKeys, o);
  }
}
