/** Synchronisations that are tried again: what aborts leave, exactly when a retry gets through, and when
    the watcher comes to rest. */
module Retry {
  import opened Text
  import opened State
  import opened Identity
  import opened Callbacks
  import opened Watcher
  import opened Reconcile
  import opened Readiness

  // ----- Entries that lost their route -----

  /** Some removed entry's route is gone from the table. */
  predicate Stranded(db: Db, snap: Snapshot, current: CallbackMap) {
    exists k :: k in RemovedKeys(snap, current) && snap[k].routeId != "" && snap[k].routeId !in db.routes
  }

  /** A removed entry whose route is gone keeps the delete loop from getting through. */
  lemma StrandedStops(cfg: MaybeConfig, username: string, w: World, removed: seq<SnapshotEntry>, faults: seq<Fault>,
                      i: nat)
    requires i < |removed| && removed[i].routeId != "" && removed[i].routeId !in w.db.routes
    ensures !DeleteLoop(cfg, username, w, removed, faults).ok
    ensures removed[i].routeId !in DeleteLoop(cfg, username, w, removed, faults).world.db.routes
    decreases |removed|
  {
    hide EntryKey, RemoteDelete;
    var e := removed[0];
    if e.routeId == "" {
      assert removed[1..][i - 1] == removed[i];
      StrandedStops(cfg, username, w, removed[1..], faults, i - 1);
    } else {
      var d := RemoteDelete(cfg, username, w.db, e.routeId, Head(faults, NoFault));
      DeleteTouches(cfg, username, w.db, e.routeId, Head(faults, NoFault));
      if i > 0 {
        assert removed[1..][i - 1] == removed[i];
        StrandedStops(cfg, username, w.(db := d.db, snap := w.snap - {EntryKey(e)}), removed[1..], Tail(faults), i - 1);
      }
    }
  }

  /** Once a removed entry's route is gone, no synchronisation on that configuration ever
      succeeds, in any order and under any faults: the deletion keeps reporting a missing route,
      no upsert is reached and the snapshot keeps the entry. */
  lemma StrandedStays(cfg: MaybeConfig, username: string, w: World, current: CallbackMap,
                      removedKeys: seq<string>, staleKeys: seq<string>, o: Oracle)
    requires Stranded(w.db, w.snap, current) && Orders(w.snap, current, removedKeys, staleKeys)
    ensures var s := SyncInOrder(cfg, username, w, current, removedKeys, staleKeys, o);
      !s.ok && s.world.snap == w.snap && Stranded(s.world.db, w.snap, current)
  {
    hide UpsertLoop, DeleteLoop, Stale;
    var removed := Pick(w.snap, removedKeys);
    var k :| k in RemovedKeys(w.snap, current) && w.snap[k].routeId != "" && w.snap[k].routeId !in w.db.routes;
    var i :| 0 <= i < |removedKeys| && removedKeys[i] == k;
    StrandedStops(cfg, username, w, removed, o.deletes, i);
  }

  /** One of a series of synchronisations, each starting where the one before stopped, succeeds. */
  predicate AnySucceeds(cfg: MaybeConfig, username: string, w: World, current: CallbackMap, rounds: seq<Round>)
    requires Ordered(w.snap, current, rounds)
    decreases |rounds|
  {
    rounds != [] &&
    var s := SyncInOrder(cfg, username, w, current, rounds[0].removedKeys, rounds[0].staleKeys, rounds[0].oracle);
    s.ok || (s.world.snap == w.snap && AnySucceeds(cfg, username, s.world, current, rounds[1..]))
  }

  /** The same for any number of further synchronisations. */
  lemma {:induction false} StrandedForever(cfg: MaybeConfig, username: string, w: World,
                                           current: CallbackMap, rounds: seq<Round>)
    requires Stranded(w.db, w.snap, current) && Ordered(w.snap, current, rounds)
    ensures !AnySucceeds(cfg, username, w, current, rounds)
    decreases |rounds|
  {
    hide Stranded, Orders, Sync;
    if rounds != [] {
      var r := rounds[0];
      StrandedStays(cfg, username, w, current, r.removedKeys, r.staleKeys, r.oracle);
      var next := SyncInOrder(cfg, username, w, current, r.removedKeys, r.staleKeys, r.oracle).world;
      StrandedForever(cfg, username, next, current, rounds[1..]);
    }
  }

  lemma TrackedInPlace(cfg: MaybeConfig, username: string, db: Db, snap: Snapshot, current: CallbackMap)
    requires Home(cfg, username, db) && Tracked(cfg, username, snap)
    ensures RemovedInPlace(username, db, snap, current)
      <==> !Stranded(db, snap, current) && RemovedApart(snap, current)
  {
    hide Home, NamesItsRoute, EntryKey, HasDomain, Apart;
    forall k | k in RemovedKeys(snap, current)
      ensures snap[k].routeId != "" && (MayGo(username, db, snap[k]) <==> snap[k].routeId in db.routes)
    {
      RouteIdIsNotEmpty(cfg, username, snap[k]);
      if snap[k].routeId in db.routes { TrackedRowIsMine(cfg, username, db, snap[k]); }
    }
  }

  predicate RemovedApart(snap: Snapshot, current: CallbackMap) {
    forall k, l :: k in RemovedKeys(snap, current) && l in RemovedKeys(snap, current) && k != l ==>
          Apart(snap[k], snap[l])
  }

  // ----- Retrying an aborted synchronisation -----

  /** What stands in the way of publishing is the same in two tables that differ only where a
      synchronisation writes or deletes. */
  lemma SamePublishable(cfg: MaybeConfig, username: string, a: Db, b: Db, snap: Snapshot, current: CallbackMap)
    requires Home(cfg, username, a) && AlikeElsewhere(username, a, b, snap, current)
    requires StalePublishable(username, b, snap, current)
    ensures StalePublishable(username, a, snap, current)
  {
    hide Home, Publishable, Clash, Stale, AlikeElsewhere, Blocked;
    forall k, x ensures !Blocked(username, a, snap, current, k, x) {
      if Blocked(username, a, snap, current, k, x) {
        BlockedIsStale(username, a, snap, current, k, x);
        if IsWantedAnew(username, snap, current, x) {
          AnewClashes(cfg, username, a, snap, current, k, x);
        } else {
          SameBlocked(username, a, b, snap, current, k, x);
        }
      }
    }
  }

  /** If the route that blocks a callback is wanted anew itself, the two callbacks clash. */
  lemma AnewClashes(cfg: MaybeConfig, username: string, db: Db, snap: Snapshot, current: CallbackMap,
                    k: string, x: string)
    requires Home(cfg, username, db) && Blocked(username, db, snap, current, k, x)
    requires IsWantedAnew(username, snap, current, x)
    ensures exists l :: l in StaleKeys(snap, current) && Clash(username, current[k], current[l])
  {
    hide Home, Stale, WantedId, Slug, IsRemoved, Api.HoldsHint;
    var l :| l in StaleKeys(snap, current) && WantedId(username, current[l]) == x;
    WantedIdHolds(cfg, username, db, current[l], Slug(current[k].hostnameHint));
    assert Clash(username, current[k], current[l]);
  }

  lemma SameBlocked(username: string, a: Db, b: Db, snap: Snapshot, current: CallbackMap, k: string, x: string)
    requires AlikeElsewhere(username, a, b, snap, current) && Blocked(username, a, snap, current, k, x)
    requires !IsWantedAnew(username, snap, current, x)
    ensures Blocked(username, b, snap, current, k, x)
  {
    hide Stale, WantedId, Slug, IsRemoved, IsWantedAnew, Api.HoldsHint;
    assert SameRow(a, b, x);
    SameRowHoldsTheSame(a, b, x, username, Slug(current[k].hostnameHint));
  }

  lemma AlikeBothWays(username: string, a: Db, b: Db, snap: Snapshot, current: CallbackMap)
    requires AlikeElsewhere(username, a, b, snap, current)
    ensures AlikeElsewhere(username, b, a, snap, current)
  {
    hide IsRemoved, IsWantedAnew;
    forall x ensures IsRemoved(snap, current, x) || IsWantedAnew(username, snap, current, x) || SameRow(b, a, x) {
      if !IsRemoved(snap, current, x) && !IsWantedAnew(username, snap, current, x) { assert SameRow(a, b, x); }
    }
  }

  lemma SyncLeavesAlike(cfg: MaybeConfig, username: string, w: World, current: CallbackMap, r: Round)
    requires Home(cfg, username, w.db) && Orders(w.snap, current, r.removedKeys, r.staleKeys)
    ensures AlikeElsewhere(username, w.db, Perform(cfg, username, w, current, r).world.db, w.snap, current)
  {
    HomeFacts(cfg, username, w.db);
    hide Home, SyncInOrder, Orders, IsRemoved, IsWantedAnew, SameRow, HasDomain, RowBetween;
    SyncRow(cfg, username, w, current, r.removedKeys, r.staleKeys, r.oracle, "");
    forall x | !IsRemoved(w.snap, current, x) && !IsWantedAnew(username, w.snap, current, x)
      ensures SameRow(w.db, Perform(cfg, username, w, current, r).world.db, x)
    {
      SyncTouches(cfg, username, w, current, r.removedKeys, r.staleKeys, r.oracle, x);
    }
  }

  /** After an abort nothing is in the way but what was before, and entries stranded by now. */
  lemma AbortUnobstructed(cfg: MaybeConfig, username: string, w: World, current: CallbackMap, r: Round)
    requires Home(cfg, username, w.db) && Tracked(cfg, username, w.snap)
    requires Orders(w.snap, current, r.removedKeys, r.staleKeys)
    ensures var first := Perform(cfg, username, w, current, r).world.db;
      Unobstructed(username, first, w.snap, current)
      <==> Unobstructed(username, w.db, w.snap, current) && !Stranded(first, w.snap, current)
  {
    hide Home, SyncInOrder, Orders, Tracked, Stranded, RemovedInPlace, StalePublishable, AlikeElsewhere, RemovedApart;
    var first := Perform(cfg, username, w, current, r).world;
    SyncKeepsHome(cfg, username, w, current, r.removedKeys, r.staleKeys, r.oracle);
    SyncLeavesAlike(cfg, username, w, current, r);
    AlikeBothWays(username, w.db, first.db, w.snap, current);
    TrackedInPlace(cfg, username, w.db, w.snap, current);
    TrackedInPlace(cfg, username, first.db, w.snap, current);
    if Stranded(w.db, w.snap, current) {
      StrandedStays(cfg, username, w, current, r.removedKeys, r.staleKeys, r.oracle);
    }
    if StalePublishable(username, w.db, w.snap, current) {
      SamePublishable(cfg, username, first.db, w.db, w.snap, current);
    }
    if StalePublishable(username, first.db, w.snap, current) {
      SamePublishable(cfg, username, w.db, first.db, w.snap, current);
    }
  }

  /** From any reachable tables, any tracked snapshot and any configuration: a faultless retry of an
      aborted synchronisation succeeds exactly when an uninterrupted one would have and no removed
      entry is stranded; one that succeeds saves the same snapshot and, unless callbacks that share a
      route ask for different ports, ends with the same tables. Each run may take its own order. */
  lemma RetryIsExact(cfg: MaybeConfig, username: string, w: World, current: CallbackMap,
                     aborted: Round, retry: Round, uninterrupted: Round)
    requires Home(cfg, username, w.db) && Tracked(cfg, username, w.snap) && Keyed(current)
    requires Ordered(w.snap, current, [aborted, retry, uninterrupted])
    requires !Perform(cfg, username, w, current, aborted).ok
    requires Faultless(retry.oracle) && Faultless(uninterrupted.oracle)
    ensures var first := Perform(cfg, username, w, current, aborted).world;
      var again := Perform(cfg, username, first, current, retry);
      var whole := Perform(cfg, username, w, current, uninterrupted);
      && first.snap == w.snap
      && (again.ok <==> whole.ok && !Stranded(first.db, w.snap, current))
      && (again.ok ==> again.world.snap == whole.world.snap)
      && (again.ok && Agreeing(username, current, StaleKeys(w.snap, current)) ==>
            again.world.db == whole.world.db)
  {
    hide Home, Tracked, Keyed, SyncInOrder, Orders, Stranded, Unobstructed, Faultless, SnapshotOf, Agreeing,
         AlikeElsewhere, Stale, HasDomain;
    RoundsOrdered(w.snap, current, aborted, retry, uninterrupted);
    var first := Perform(cfg, username, w, current, aborted).world;
    SyncEnds(cfg, username, w, current, aborted.removedKeys, aborted.staleKeys, aborted.oracle);
    SyncKeepsHome(cfg, username, w, current, aborted.removedKeys, aborted.staleKeys, aborted.oracle);
    AbortUnobstructed(cfg, username, w, current, aborted);
    SuccessIsExact(cfg, username, w, current, uninterrupted.removedKeys, uninterrupted.staleKeys, uninterrupted.oracle);
    SuccessIsExact(cfg, username, first, current, retry.removedKeys, retry.staleKeys, retry.oracle);
    if Perform(cfg, username, first, current, retry).ok {
      SuccessSavesTheWanted(cfg, username, first, current, retry.removedKeys, retry.staleKeys, retry.oracle);
      SuccessSavesTheWanted(cfg, username, w, current, uninterrupted.removedKeys, uninterrupted.staleKeys,
          uninterrupted.oracle);
      if Agreeing(username, current, StaleKeys(w.snap, current)) {
        SyncLeavesAlike(cfg, username, w, current, aborted);
        SuccessIsUnique(cfg, username, w, first, current, uninterrupted, retry);
      }
    }
  }

  lemma RoundsOrdered(snap: Snapshot, current: CallbackMap, a: Round, b: Round, c: Round)
    requires Ordered(snap, current, [a, b, c])
    ensures Orders(snap, current, a.removedKeys, a.staleKeys) && Orders(snap, current, b.removedKeys, b.staleKeys)
      && Orders(snap, current, c.removedKeys, c.staleKeys)
    ensures Ordered(snap, current, [c, b])
  {
    hide Orders;
    assert [a, b, c][0] == a && [a, b, c][1] == b && [a, b, c][2] == c;
  }

  /** With nothing to delete, every abort can be retried: wherever the upsert loop stopped, before or
      after a commit, on a configuration write or on saving the snapshot, the retry succeeds exactly if
      an uninterrupted run would have, and then ends like it. */
  lemma RetryOfUpsertsIsSafe(cfg: MaybeConfig, username: string, w: World, current: CallbackMap,
                             aborted: Round, retry: Round, uninterrupted: Round)
    requires Home(cfg, username, w.db) && Tracked(cfg, username, w.snap) && Keyed(current)
    requires Ordered(w.snap, current, [aborted, retry, uninterrupted])
    requires !Perform(cfg, username, w, current, aborted).ok
    requires Faultless(retry.oracle) && Faultless(uninterrupted.oracle)
    requires RemovedKeys(w.snap, current) == {}
    ensures var first := Perform(cfg, username, w, current, aborted).world;
      var again := Perform(cfg, username, first, current, retry);
      var whole := Perform(cfg, username, w, current, uninterrupted);
      && (again.ok <==> whole.ok)
      && (again.ok ==> again.world.snap == whole.world.snap)
      && (again.ok && Agreeing(username, current, StaleKeys(w.snap, current)) ==>
            again.world.db == whole.world.db)
  {
    hide Home, Tracked, Keyed, Perform, Ordered, Faultless, Agreeing;
    RetryIsExact(cfg, username, w, current, aborted, retry, uninterrupted);
  }

  /** Deletions that get as far as a missing route leave it missing. */
  lemma {:induction false} DeletionsTake(cfg: MaybeConfig, username: string, w: World, removed: seq<SnapshotEntry>)
    requires Home(cfg, username, w.db) && removed != []
    requires forall i :: 0 <= i < |removed| ==> removed[i].routeId != "" && Owned(username, w.db, removed[i])
    ensures var s := DeleteLoop(cfg, username, w, removed, []);
      exists i :: 0 <= i < |removed| && removed[i].routeId !in s.world.db.routes
    decreases |removed|
  {
    hide Home, EntryKey, RemoteDelete, Mine;
    var e := removed[0];
    DeleteLoopRow(cfg, username, w, removed, [], e.routeId);
    if e.routeId !in w.db.routes {
      StrandedStops(cfg, username, w, removed, [], 0);
    } else {
      DeletionSucceeds(cfg, username, w.db, e.routeId);
      var next := w.(db := w.db.(routes := w.db.routes - {e.routeId}), snap := w.snap - {EntryKey(e)});
      DeleteLoopRow(cfg, username, next, removed[1..], [], e.routeId);
    }
  }

  /** If the entry's route is there, it is the user's. */
  predicate Owned(username: string, db: Db, e: SnapshotEntry) {
    e.routeId in db.routes ==> Mine(username, db.routes[e.routeId])
  }

  /** A synchronisation that has something to delete and then fails to publish strands an entry: from
      a perfectly good start, one fault blocks the watcher for good. */
  lemma DeletionThenFailureStrands(cfg: MaybeConfig, username: string, w: World, current: CallbackMap,
                                   removedKeys: seq<string>, staleKeys: seq<string>)
    requires Home(cfg, username, w.db) && Tracked(cfg, username, w.snap)
    requires Orders(w.snap, current, removedKeys, staleKeys) && removedKeys != [] && staleKeys != []
    ensures var s := SyncInOrder(cfg, username, w, current, removedKeys, staleKeys,
                                 Oracle(true, [], [UpsertFault(BeforeCommit, Written, false)], true));
      !s.ok && s.world.snap == w.snap && Stranded(s.world.db, w.snap, current)
  {
    hide Stale, Home, NamesItsRoute, EntryKey, DeleteLoop, Mine;
    var removed := Pick(w.snap, removedKeys);
    forall i | 0 <= i < |removed| ensures removed[i].routeId != "" && Owned(username, w.db, removed[i]) {
      assert removedKeys[i] in w.snap;
      RouteIdIsNotEmpty(cfg, username, removed[i]);
      if removed[i].routeId in w.db.routes { TrackedRowIsMine(cfg, username, w.db, removed[i]); }
    }
    DeletionsTake(cfg, username, w, removed);
    var db := DeleteLoop(cfg, username, w, removed, []).world.db;
    var i :| 0 <= i < |removed| && removed[i].routeId !in db.routes;
    assert removedKeys[i] in RemovedKeys(w.snap, current);
  }

  // ----- The feedback loop settles -----

  lemma UpsertReplyKeepsPort(cfg: MaybeConfig, username: string, db: Db, c: CallbackRoute, f: Fault)
    ensures RemoteUpsert(cfg, username, db, c, f).route.Some? ==>
      RemoteUpsert(cfg, username, db, c, f).route.value.localPort == c.localPort
  {}

  /** The callbacks are wanted by the configuration. */
  predicate AskedFor(entries: Entries, added: seq<CallbackRoute>) {
    forall i :: 0 <= i < |added| ==>
          added[i].pluginId in Wanted(entries) && Wanted(entries)[added[i].pluginId] == added[i]
  }

  /** No write-back of the loop overwrites what discovery reads at that moment. */
  predicate LoopSpares(cfg: MaybeConfig, username: string, w: World, added: seq<CallbackRoute>,
                       faults: seq<UpsertFault>)
    decreases |added|
  {
    if added == [] then true
    else
      var c, f := added[0], Head(faults, SMOOTH);
      var reply := RemoteUpsert(cfg, username, w.db, c, f.remote);
      reply.route.Some? ==>
        var r := reply.route.value;
        && WriteSpares(w.entries, c, Url(r.hostname), r.localPort, f.writer, f.asNumber)
        && (f.writer == Written ==>
              LoopSpares(cfg, username, Next(w, c, f, reply.db, r), added[1..], Tail(faults)))
  }

  /** Discovery finds the same as in `start` after every single write of the loop. */
  predicate LoopAsksTheSame(start: Entries, cfg: MaybeConfig, username: string, w: World, added: seq<CallbackRoute>,
                            faults: seq<UpsertFault>)
    decreases |added|
  {
    if added == [] then true
    else
      var c, f := added[0], Head(faults, SMOOTH);
      var reply := RemoteUpsert(cfg, username, w.db, c, f.remote);
      reply.route.Some? ==>
        var r := reply.route.value;
        && (f.writer != UrlFails ==> AsksTheSame(start, ConfigSet(w.entries, c.urlKey, Str(Url(r.hostname)))))
        && AsksTheSame(start, SetCallback(w.entries, c, Url(r.hostname), r.localPort, f.writer, f.asNumber))
        && (f.writer == Written ==>
              LoopAsksTheSame(start, cfg, username, Next(w, c, f, reply.db, r), added[1..], Tail(faults)))
  }

  /** The loop leaves discovery as it was at every moment exactly if none of its writes overwrites what
      discovery reads. */
  lemma {:induction false} LoopIsExact(start: Entries, cfg: MaybeConfig, username: string, w: World,
                                       added: seq<CallbackRoute>, faults: seq<UpsertFault>)
    requires AsksTheSame(start, w.entries)
    ensures LoopAsksTheSame(start, cfg, username, w, added, faults) <==> LoopSpares(cfg, username, w, added, faults)
    ensures LoopSpares(cfg, username, w, added, faults) ==>
      AsksTheSame(start, UpsertLoop(cfg, username, w, added, faults).world.entries)
    decreases |added|
  {
    hide AsksTheSame, WriteSpares, RemoteUpsert, SetCallback, ConfigSet, KeyOf, PublishedEntry, Url;
    if added != [] {
      var c, f := added[0], Head(faults, SMOOTH);
      var reply := RemoteUpsert(cfg, username, w.db, c, f.remote);
      if reply.route.Some? {
        var r := reply.route.value;
        var written := SetCallback(w.entries, c, Url(r.hostname), r.localPort, f.writer, f.asNumber);
        WriteBackIsExact(w.entries, c, Url(r.hostname), r.localPort, f.writer, f.asNumber);
        AsksTheSameTwice(start, w.entries, ConfigSet(w.entries, c.urlKey, Str(Url(r.hostname))));
        AsksTheSameTwice(start, w.entries, written);
        if f.writer == Written && AsksTheSame(start, written) {
          LoopIsExact(start, cfg, username, Next(w, c, f, reply.db, r), added[1..], Tail(faults));
        }
      }
    }
  }

  lemma FirstAskedFor(entries: Entries, added: seq<CallbackRoute>)
    requires HarmlessKeys(entries) && AskedFor(entries, added) && added != []
    ensures added[0].pluginId in Wanted(entries) && Wanted(entries)[added[0].pluginId] == added[0]
    ensures Harmless(added[0].pluginId, added[0])
  {
    hide Wanted, Harmless;
  }

  lemma RestAskedFor(entries: Entries, after: Entries, added: seq<CallbackRoute>)
    requires AskedFor(entries, added) && added != [] && Wanted(after) == Wanted(entries)
    ensures AskedFor(after, added[1..])
  {
    hide Wanted;
    forall i | 0 <= i < |added[1..]| ensures added[1..][i] == added[i + 1] {}
  }

  /** With harmless keys no write-back, complete or not, overwrites what discovery reads. */
  lemma {:induction false} HarmlessLoopSpares(cfg: MaybeConfig, username: string, w: World,
                                              added: seq<CallbackRoute>, faults: seq<UpsertFault>)
    requires HarmlessKeys(w.entries) && AskedFor(w.entries, added)
    ensures LoopSpares(cfg, username, w, added, faults)
    decreases |added|
  {
    hide HarmlessKeys, AskedFor, RemoteUpsert, SetCallback, Wanted, Broken, KeyOf, WriteSpares, Harmless,
         PublishedEntry;
    if added != [] {
      var c, f := added[0], Head(faults, SMOOTH);
      var reply := RemoteUpsert(cfg, username, w.db, c, f.remote);
      FirstAskedFor(w.entries, added);
      UpsertReplyKeepsPort(cfg, username, w.db, c, f.remote);
      if reply.route.Some? {
        var r := reply.route.value;
        HarmlessIsSpared(w.entries, c.pluginId, Url(r.hostname), f.writer, f.asNumber);
        WriteBackChangesNothing(w.entries, c.pluginId, Url(r.hostname), f.writer, f.asNumber);
        if f.writer == Written {
          var next := Next(w, c, f, reply.db, r);
          RestAskedFor(w.entries, next.entries, added);
          HarmlessLoopSpares(cfg, username, next, added[1..], Tail(faults));
        }
      }
    }
  }

  lemma CurrentIsAskedFor(entries: Entries, current: CallbackMap, keys: seq<string>)
    requires IsCurrent(current, entries) && forall i :: 0 <= i < |keys| ==> keys[i] in current
    ensures AskedFor(entries, Pick(current, keys))
  {}

  /** No write-back of the synchronisation overwrites what discovery reads. */
  predicate SyncSpares(cfg: MaybeConfig, username: string, w: World, current: CallbackMap, r: Round)
    requires Orders(w.snap, current, r.removedKeys, r.staleKeys)
  {
    var deleted := Deletes(cfg, username, w, current, r.removedKeys, r.oracle);
    r.oracle.read && deleted.ok ==>
      LoopSpares(cfg, username, deleted.world, Pick(current, r.staleKeys), r.oracle.upserts)
  }

  /** A synchronisation that spares what discovery reads leaves it with the same result, however it ends. */
  lemma SparedIsFoundAgain(cfg: MaybeConfig, username: string, w: World, current: CallbackMap, r: Round)
    requires Orders(w.snap, current, r.removedKeys, r.staleKeys) && SyncSpares(cfg, username, w, current, r)
    ensures var after := Perform(cfg, username, w, current, r).world.entries;
      AsksTheSame(w.entries, after) && Wanted(after) == Wanted(w.entries) && (Broken(after) <==> Broken(w.entries))
  {
    hide AsksTheSame, Wanted, Broken, DeleteLoop, UpsertLoop, LoopSpares, LoopAsksTheSame, Stale;
    var deleted := Deletes(cfg, username, w, current, r.removedKeys, r.oracle);
    DeleteLoopRow(cfg, username, w, Pick(w.snap, r.removedKeys), r.oracle.deletes, "");
    NothingAsksAnew(w.entries);
    LoopIsExact(w.entries, cfg, username, deleted.world, Pick(current, r.staleKeys), r.oracle.upserts);
    SameAsking(w.entries, Perform(cfg, username, w, current, r).world.entries);
  }

  /** With harmless keys a synchronisation spares what discovery reads, however it ends, and leaves it with
      the same result and harmless keys. */
  lemma SyncKeepsWanted(cfg: MaybeConfig, username: string, w: World, current: CallbackMap, r: Round)
    requires IsCurrent(current, w.entries) && HarmlessKeys(w.entries)
    requires Orders(w.snap, current, r.removedKeys, r.staleKeys)
    ensures SyncSpares(cfg, username, w, current, r)
    ensures var after := Perform(cfg, username, w, current, r).world.entries;
      Wanted(after) == Wanted(w.entries) && (Broken(after) <==> Broken(w.entries)) && HarmlessKeys(after)
  {
    hide IsCurrent, DeleteLoop, UpsertLoop, LoopSpares, AskedFor, Wanted, Broken, Stale, Harmless, SyncInOrder;
    DeleteLoopRow(cfg, username, w, Pick(w.snap, r.removedKeys), r.oracle.deletes, "");
    CurrentIsAskedFor(w.entries, current, r.staleKeys);
    HarmlessLoopSpares(cfg, username, Deletes(cfg, username, w, current, r.removedKeys, r.oracle).world,
        Pick(current, r.staleKeys), r.oracle.upserts);
    SparedIsFoundAgain(cfg, username, w, current, r);
  }

  /** After any synchronisation that succeeds and spares what discovery reads, the watcher is at rest:
      discovery on the rewritten configuration finds the same callbacks, nothing is stale, nothing is
      removed, and the synchronisation its own write triggers calls nothing and changes nothing. */
  lemma SettledAfterSync(cfg: MaybeConfig, username: string, w: World, current: CallbackMap,
                         r: Round, next: CallbackMap, again: Round)
    requires Tracked(cfg, username, w.snap) && Perform(cfg, username, w, current, r).ok
    requires Orders(w.snap, current, r.removedKeys, r.staleKeys) && SyncSpares(cfg, username, w, current, r)
    requires IsCurrent(current, w.entries) && NulFree(w.entries)
    requires var after := Perform(cfg, username, w, current, r).world;
      IsCurrent(next, after.entries) && Orders(after.snap, next, again.removedKeys, again.staleKeys)
    ensures var after := Perform(cfg, username, w, current, r).world;
      && next == current && again.removedKeys == [] && again.staleKeys == []
      && Perform(cfg, username, after, next, again).world == after
  {
    assert HasDomain(cfg);
    hide Tracked, Sync, Wanted, SyncSpares, KeyOf, WantedRow, HasDomain, SnapshotOf, AsksTheSame;
    CurrentIsKeyed(current, w.entries);
    SparedIsFoundAgain(cfg, username, w, current, r);
    SuccessSavesTheWanted(cfg, username, w, current, r.removedKeys, r.staleKeys, r.oracle);
    var after := Perform(cfg, username, w, current, r).world;
    SameWantedSameCurrent(next, after.entries, w.entries);
    CurrentIsUnique(current, next, w.entries);
    NothingStale(cfg, username, current);
    ListingOfNothing(again.removedKeys, RemovedKeys(after.snap, next));
    ListingOfNothing(again.staleKeys, StaleKeys(after.snap, next));
    EmptySync(cfg, username, after, again.oracle);
  }

  /** Without NUL in plugin IDs, what discovery finds is keyed. */
  lemma CurrentIsKeyed(current: CallbackMap, entries: Entries)
    requires IsCurrent(current, entries) && NulFree(entries)
    ensures Keyed(current)
  {
    hide Wanted, KeyOf;
  }

  lemma SameWantedSameCurrent(current: CallbackMap, a: Entries, b: Entries)
    requires Wanted(a) == Wanted(b) && IsCurrent(current, a)
    ensures IsCurrent(current, b)
  {
    hide Wanted, KeyOf;
  }

  lemma NothingStale(cfg: MaybeConfig, username: string, current: CallbackMap)
    requires HasDomain(cfg)
    ensures StaleKeys(SnapshotOf(cfg, username, current), current) == {}
      == RemovedKeys(SnapshotOf(cfg, username, current), current)
  {
    hide WantedRow;
  }

  lemma ListingOfNothing(keys: seq<string>, s: set<string>)
    requires Enumerates(keys, s)
    ensures keys != [] ==> s != {}
  {
    if keys != [] { assert keys[0] in s; }
  }

  lemma EmptySync(cfg: MaybeConfig, username: string, w: World, o: Oracle)
    ensures Sync(cfg, username, w, [], [], o).world == w
  {}
}
