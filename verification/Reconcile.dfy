/** What a synchronisation does to the table however it ends, exactly when it succeeds, and what a
    success leaves. */
module Reconcile {
  import opened State
  import opened Identity
  import opened Callbacks
  import opened Watcher
  import Api

  // ----- However it ends -----

  /** A row is as before, is gone and named by a removed entry, or is the row of a stale callback. */
  predicate RowBetween(cfg: MaybeConfig, username: string, before: Db, after: Db, snap: Snapshot,
                       current: CallbackMap, x: string) {
    || SameRow(before, after, x)
    || (x !in after.routes && IsRemoved(snap, current, x))
    || exists k :: k in StaleKeys(snap, current) && IsRowOf(cfg, username, after, current[k], x)
  }

  /** At every end of a synchronisation, aborted or not, from whatever start, each row is an old one
      or one of a stale callback, rows vanish only with removed entries, rows that are none of the
      user's plugin rows are untouched, and the saved snapshot moved only on success. */
  lemma SyncStaysBetween(cfg: MaybeConfig, username: string, w: World, current: CallbackMap,
                         removedKeys: seq<string>, staleKeys: seq<string>, o: Oracle)
    requires Home(cfg, username, w.db) && Orders(w.snap, current, removedKeys, staleKeys)
    ensures var s := SyncInOrder(cfg, username, w, current, removedKeys, staleKeys, o);
      && (forall x :: RowBetween(cfg, username, w.db, s.world.db, w.snap, current, x))
      && Home(cfg, username, s.world.db) && OthersSame(username, w.db, s.world.db)
      && s.world.db == w.db.(routes := s.world.db.routes) && (!s.ok ==> s.world.snap == w.snap)
  {
    HomeFacts(cfg, username, w.db);
    hide Home, SyncInOrder, RowBetween, OtherSame, HasDomain, ValidUsername, Orders;
    SyncKeepsHome(cfg, username, w, current, removedKeys, staleKeys, o);
    var after := SyncInOrder(cfg, username, w, current, removedKeys, staleKeys, o).world.db;
    forall x ensures RowBetween(cfg, username, w.db, after, w.snap, current, x) && OtherSame(username, w.db, after, x) {
      SyncRow(cfg, username, w, current, removedKeys, staleKeys, o, x);
      SyncLeavesOther(cfg, username, w, current, removedKeys, staleKeys, o, x);
    }
    SyncRow(cfg, username, w, current, removedKeys, staleKeys, o, "");
  }

  /** The delete loop of a synchronisation. */
  function Deletes(cfg: MaybeConfig, username: string, w: World, current: CallbackMap, removedKeys: seq<string>,
                   o: Oracle): Stage
    requires Enumerates(removedKeys, RemovedKeys(w.snap, current))
  {
    DeleteLoop(cfg, username, w, Pick(w.snap, removedKeys), o.deletes)
  }

  /** Its upsert loop, from where the delete loop ended. */
  function Upserts(cfg: MaybeConfig, username: string, w: World, current: CallbackMap, removedKeys: seq<string>,
                   staleKeys: seq<string>, o: Oracle): Stage
    requires Orders(w.snap, current, removedKeys, staleKeys)
  {
    UpsertLoop(cfg, username, Deletes(cfg, username, w, current, removedKeys, o).world, Pick(current, staleKeys),
               o.upserts)
  }

  lemma SyncEnds(cfg: MaybeConfig, username: string, w: World, current: CallbackMap,
                 removedKeys: seq<string>, staleKeys: seq<string>, o: Oracle)
    requires Orders(w.snap, current, removedKeys, staleKeys)
    ensures var s := SyncInOrder(cfg, username, w, current, removedKeys, staleKeys, o);
      var deleted := Deletes(cfg, username, w, current, removedKeys, o);
      var published := Upserts(cfg, username, w, current, removedKeys, staleKeys, o);
      && (s.world.db == w.db || s.world.db == deleted.world.db || s.world.db == published.world.db)
      && (s.ok <==> o.read && deleted.ok && published.ok && o.save)
      && (s.ok ==> s == published) && (!s.ok ==> s.world.snap == w.snap)
  {
    hide DeleteLoop, UpsertLoop, RemovedKeys, StaleKeys;
  }

  /** Between the start and any later moment of the two loops. */
  lemma LoopsRow(cfg: MaybeConfig, username: string, w: World, current: CallbackMap,
                 removedKeys: seq<string>, staleKeys: seq<string>, o: Oracle, x: string)
    requires HasDomain(cfg) && Orders(w.snap, current, removedKeys, staleKeys)
    ensures var deleted := Deletes(cfg, username, w, current, removedKeys, o).world.db;
      var published := Upserts(cfg, username, w, current, removedKeys, staleKeys, o).world.db;
      && RowBetween(cfg, username, w.db, deleted, w.snap, current, x) && deleted == w.db.(routes := deleted.routes)
      && RowBetween(cfg, username, w.db, published, w.snap, current, x)
      && published == w.db.(routes := published.routes)
  {
    hide DeleteLoop, UpsertLoop, HasDomain, IsRowOf, Stale, RowBetween, SameRow, Stays, IsRemoved;
    var removed, added := Pick(w.snap, removedKeys), Pick(current, staleKeys);
    var deleted := Deletes(cfg, username, w, current, removedKeys, o).world;
    DeleteLoopRow(cfg, username, w, removed, o.deletes, x);
    UpsertLoopRow(cfg, username, deleted, added, o.upserts, x);
    NamedIsRemoved(w.snap, current, removedKeys, x);
    DeletedIsBetween(cfg, username, w.db, deleted.db, w.snap, current, x);
    var published := Upserts(cfg, username, w, current, removedKeys, staleKeys, o).world.db;
    if SameRow(deleted.db, published, x) {
      BetweenStays(cfg, username, w.db, deleted.db, published, w.snap, current, x);
    } else {
      var i :| 0 <= i < |added| && IsRowOf(cfg, username, published, added[i], x);
      WrittenIsBetween(cfg, username, w.db, published, w.snap, current, staleKeys[i], x);
    }
  }

  lemma SyncRow(cfg: MaybeConfig, username: string, w: World, current: CallbackMap,
                removedKeys: seq<string>, staleKeys: seq<string>, o: Oracle, x: string)
    requires HasDomain(cfg) && Orders(w.snap, current, removedKeys, staleKeys)
    ensures var s := SyncInOrder(cfg, username, w, current, removedKeys, staleKeys, o);
      && RowBetween(cfg, username, w.db, s.world.db, w.snap, current, x)
      && s.world.db == w.db.(routes := s.world.db.routes) && (!s.ok ==> s.world.snap == w.snap)
  {
    hide Deletes, Upserts, SyncInOrder, Orders, HasDomain, IsRowOf, StaleKeys, IsRemoved;
    SyncEnds(cfg, username, w, current, removedKeys, staleKeys, o);
    LoopsRow(cfg, username, w, current, removedKeys, staleKeys, o, x);
  }

  lemma NamedIsRemoved(snap: Snapshot, current: CallbackMap, removedKeys: seq<string>, x: string)
    requires Enumerates(removedKeys, RemovedKeys(snap, current))
    ensures (exists i :: 0 <= i < |removedKeys| && Pick(snap, removedKeys)[i].routeId == x)
      <==> IsRemoved(snap, current, x)
  {
    hide Pick;
    var removed := Pick(snap, removedKeys);
    if i :| 0 <= i < |removed| && removed[i].routeId == x { assert removedKeys[i] in RemovedKeys(snap, current); }
    if k :| k in RemovedKeys(snap, current) && snap[k].routeId == x {
      var i :| 0 <= i < |removedKeys| && removedKeys[i] == k;
      assert removed[i].routeId == x;
    }
  }

  lemma DeletedIsBetween(cfg: MaybeConfig, username: string, before: Db, after: Db, snap: Snapshot,
                         current: CallbackMap, x: string)
    requires SameRow(before, after, x) || (x !in after.routes && IsRemoved(snap, current, x))
    ensures RowBetween(cfg, username, before, after, snap, current, x)
  {
    hide IsRemoved, IsRowOf, StaleKeys;
  }

  lemma WrittenIsBetween(cfg: MaybeConfig, username: string, before: Db, after: Db, snap: Snapshot,
                         current: CallbackMap, k: string, x: string)
    requires k in StaleKeys(snap, current) && IsRowOf(cfg, username, after, current[k], x)
    ensures RowBetween(cfg, username, before, after, snap, current, x)
  {
    hide IsRemoved, IsRowOf, SameRow, Stale;
  }

  lemma BetweenStays(cfg: MaybeConfig, username: string, before: Db, middle: Db, after: Db, snap: Snapshot,
                     current: CallbackMap, x: string)
    requires RowBetween(cfg, username, before, middle, snap, current, x) && SameRow(middle, after, x)
    ensures RowBetween(cfg, username, before, after, snap, current, x)
  {
    hide IsRemoved, WantedId, WantedRow, HasDomain, Stale;
  }

  /** However it ends, a synchronisation touches only the rows of removed entries and of stale callbacks. */
  lemma SyncTouches(cfg: MaybeConfig, username: string, w: World, current: CallbackMap,
                    removedKeys: seq<string>, staleKeys: seq<string>, o: Oracle, x: string)
    requires HasDomain(cfg) && Orders(w.snap, current, removedKeys, staleKeys)
    requires !IsRemoved(w.snap, current, x) && !IsWantedAnew(username, w.snap, current, x)
    ensures SameRow(w.db, SyncInOrder(cfg, username, w, current, removedKeys, staleKeys, o).world.db, x)
  {
    SyncRow(cfg, username, w, current, removedKeys, staleKeys, o, x);
    hide SyncInOrder, IsRemoved, SameRow, WantedId, WantedRow, HasDomain, Stale;
  }

  lemma LoopsKeepHome(cfg: MaybeConfig, username: string, w: World, current: CallbackMap,
                      removedKeys: seq<string>, staleKeys: seq<string>, o: Oracle)
    requires Home(cfg, username, w.db) && Orders(w.snap, current, removedKeys, staleKeys)
    ensures Home(cfg, username, Deletes(cfg, username, w, current, removedKeys, o).world.db)
    ensures Home(cfg, username, Upserts(cfg, username, w, current, removedKeys, staleKeys, o).world.db)
  {
    hide Home, DeleteLoop, UpsertLoop, Stale;
    var removed, added := Pick(w.snap, removedKeys), Pick(current, staleKeys);
    DeleteLoopKeepsHome(cfg, username, w, removed, o.deletes);
    UpsertLoopKeepsHome(cfg, username, DeleteLoop(cfg, username, w, removed, o.deletes).world, added, o.upserts);
  }

  lemma SyncKeepsHome(cfg: MaybeConfig, username: string, w: World, current: CallbackMap,
                      removedKeys: seq<string>, staleKeys: seq<string>, o: Oracle)
    requires Home(cfg, username, w.db) && Orders(w.snap, current, removedKeys, staleKeys)
    ensures Home(cfg, username, SyncInOrder(cfg, username, w, current, removedKeys, staleKeys, o).world.db)
  {
    hide Home, Deletes, Upserts, SyncInOrder, Orders;
    SyncEnds(cfg, username, w, current, removedKeys, staleKeys, o);
    LoopsKeepHome(cfg, username, w, current, removedKeys, staleKeys, o);
  }

  /** The rows that are none of the user's plugin rows are the same in both tables. */
  ghost predicate OthersSame(username: string, a: Db, b: Db) {
    forall id :: OtherSame(username, a, b, id)
  }

  predicate OtherSame(username: string, a: Db, b: Db, id: string) {
    (Stays(username, a, id) <==> Stays(username, b, id)) && (Stays(username, a, id) ==> a.routes[id] == b.routes[id])
  }

  lemma OthersSameAtStart(username: string, db: Db)
    ensures OthersSame(username, db, db)
  {}

  lemma OthersSameTwice(username: string, a: Db, b: Db, c: Db)
    requires OthersSame(username, a, b) && OthersSame(username, b, c)
    ensures OthersSame(username, a, c)
  {
    hide OtherSame;
    forall id ensures OtherSame(username, a, c, id) { OtherSameTwice(username, a, b, c, id); }
  }

  lemma LoopsLeaveOther(cfg: MaybeConfig, username: string, w: World, current: CallbackMap,
                        removedKeys: seq<string>, staleKeys: seq<string>, o: Oracle, x: string)
    requires Home(cfg, username, w.db) && Orders(w.snap, current, removedKeys, staleKeys)
    ensures OtherSame(username, w.db, Deletes(cfg, username, w, current, removedKeys, o).world.db, x)
    ensures OtherSame(username, w.db, Upserts(cfg, username, w, current, removedKeys, staleKeys, o).world.db, x)
  {
    HomeFacts(cfg, username, w.db);
    hide Home, DeleteLoop, UpsertLoop, IsRowOf, HasDomain, ValidUsername, Stale, Mine, Stays, SameRow, OtherSame;
    var removed, added := Pick(w.snap, removedKeys), Pick(current, staleKeys);
    var deleted := Deletes(cfg, username, w, current, removedKeys, o).world;
    DeleteLoopRow(cfg, username, w, removed, o.deletes, x);
    LoopsKeepHome(cfg, username, w, current, removedKeys, staleKeys, o);
    UpsertLoopRow(cfg, username, deleted, added, o.upserts, x);
    var published := Upserts(cfg, username, w, current, removedKeys, staleKeys, o).world.db;
    if SameRow(w.db, deleted.db, x) { SameRowIsOtherSame(username, w.db, deleted.db, x); }
    else { GoneIsOtherSame(username, w.db, deleted.db, x); }
    if SameRow(deleted.db, published, x) {
      SameRowIsOtherSame(username, deleted.db, published, x);
    } else {
      var i :| 0 <= i < |added| && IsRowOf(cfg, username, published, added[i], x);
      WrittenIsMine(cfg, username, deleted.db, published, added[i], x);
      NeitherIsOtherSame(username, deleted.db, published, x);
    }
    OtherSameTwice(username, w.db, deleted.db, published, x);
  }

  lemma SameRowIsOtherSame(username: string, a: Db, b: Db, id: string)
    requires SameRow(a, b, id)
    ensures OtherSame(username, a, b, id)
  {}

  lemma GoneIsOtherSame(username: string, a: Db, b: Db, id: string)
    requires !Stays(username, a, id) && id !in b.routes
    ensures OtherSame(username, a, b, id)
  {
    hide Mine;
  }

  lemma NeitherIsOtherSame(username: string, a: Db, b: Db, id: string)
    requires !Stays(username, a, id) && !Stays(username, b, id)
    ensures OtherSame(username, a, b, id)
  {
    hide Stays;
  }

  lemma OtherSameTwice(username: string, a: Db, b: Db, c: Db, id: string)
    requires OtherSame(username, a, b, id) && OtherSame(username, b, c, id)
    ensures OtherSame(username, a, c, id)
  {
    hide Mine;
  }

  lemma SyncLeavesOther(cfg: MaybeConfig, username: string, w: World, current: CallbackMap,
                        removedKeys: seq<string>, staleKeys: seq<string>, o: Oracle, x: string)
    requires Home(cfg, username, w.db) && Orders(w.snap, current, removedKeys, staleKeys)
    ensures OtherSame(username, w.db, SyncInOrder(cfg, username, w, current, removedKeys, staleKeys, o).world.db, x)
  {
    hide Home, Deletes, Upserts, SyncInOrder, Orders, Mine;
    SyncEnds(cfg, username, w, current, removedKeys, staleKeys, o);
    LoopsLeaveOther(cfg, username, w, current, removedKeys, staleKeys, o, x);
  }

  lemma WrittenIsMine(cfg: MaybeConfig, username: string, before: Db, after: Db, c: CallbackRoute, x: string)
    requires Home(cfg, username, before) && IsRowOf(cfg, username, after, c, x)
    ensures !Stays(username, before, x) && !Stays(username, after, x)
  {
    WantedRowShape(cfg, username, c);
    hide Home, HasDomain, WantedId, WantedRow, Mine;
    if x in before.routes { WantedIdIsMine(cfg, username, before, c); }
  }

  // ----- Exactly when it succeeds -----

  /** The routes of removed entries are there, are the user's, and differ. */
  predicate RemovedInPlace(username: string, db: Db, snap: Snapshot, current: CallbackMap) {
    && (forall k :: k in RemovedKeys(snap, current) ==> MayGo(username, db, snap[k]))
    && (forall k, l :: k in RemovedKeys(snap, current) && l in RemovedKeys(snap, current) && k != l ==>
          Apart(snap[k], snap[l]))
  }

  /** Some other route holds the hint of a callback that has to be published, and no removed entry
      names that route: an orphan, another callback's route, or a route of a user with the same slug. */
  predicate Blocked(username: string, db: Db, snap: Snapshot, current: CallbackMap, k: string, x: string) {
    && k in StaleKeys(snap, current) && x in db.routes && x != WantedId(username, current[k])
    && !IsRemoved(snap, current, x) && Api.HoldsHint(db, x, username, Slug(current[k].hostnameHint))
  }

  /** Every callback to publish has slugs and a port, no two of different routes share a slugged hint,
      and no route that stays holds the hint of one. */
  ghost predicate StalePublishable(username: string, db: Db, snap: Snapshot, current: CallbackMap) {
    && (forall k :: k in StaleKeys(snap, current) ==> Publishable(current[k]))
    && (forall k, l :: k in StaleKeys(snap, current) && l in StaleKeys(snap, current) ==>
          !Clash(username, current[k], current[l]))
    && (forall k, x :: !Blocked(username, db, snap, current, k, x))
  }

  ghost predicate Unobstructed(username: string, db: Db, snap: Snapshot, current: CallbackMap) {
    RemovedInPlace(username, db, snap, current) && StalePublishable(username, db, snap, current)
  }

  lemma PickedDeletable(username: string, db: Db, snap: Snapshot, current: CallbackMap, removedKeys: seq<string>)
    requires Enumerates(removedKeys, RemovedKeys(snap, current))
    ensures Deletable(username, db, Pick(snap, removedKeys)) <==> RemovedInPlace(username, db, snap, current)
  {
    hide MayGo;
    var removed := Pick(snap, removedKeys);
    if Deletable(username, db, removed) {
      forall k | k in RemovedKeys(snap, current) ensures MayGo(username, db, snap[k]) {
        var i :| 0 <= i < |removedKeys| && removedKeys[i] == k;
        assert MayGo(username, db, removed[i]);
      }
      forall k, l | k in RemovedKeys(snap, current) && l in RemovedKeys(snap, current) && k != l
        ensures Apart(snap[k], snap[l])
      {
        var i :| 0 <= i < |removedKeys| && removedKeys[i] == k;
        var j :| 0 <= j < |removedKeys| && removedKeys[j] == l;
        assert if i < j then Apart(removed[i], removed[j]) else Apart(removed[j], removed[i]);
      }
    }
  }

  /** Exactly the routes that removed entries name are gone. */
  ghost predicate IsCut(before: Db, after: Db, snap: Snapshot, current: CallbackMap) {
    forall x :: if IsRemoved(snap, current, x) then x !in after.routes else SameRow(before, after, x)
  }

  lemma HeldIsBlocked(username: string, db: Db, cut: Db, snap: Snapshot, current: CallbackMap, k: string)
    requires IsCut(db, cut, snap, current) && k in StaleKeys(snap, current)
    ensures Held(username, cut, current[k]) <==> exists x :: Blocked(username, db, snap, current, k, x)
  {
    hide IsRemoved, WantedId, Stale, Api.HoldsHint, Slug, SameRow;
    var id, hint := WantedId(username, current[k]), Slug(current[k].hostnameHint);
    if Held(username, cut, current[k]) {
      var x :| x in cut.routes && x != id && Api.HoldsHint(cut, x, username, hint);
      SameRowBothWays(db, cut, x);
      SameRowHoldsTheSame(db, cut, x, username, hint);
      assert Blocked(username, db, snap, current, k, x);
    }
    if x :| Blocked(username, db, snap, current, k, x) {
      SameRowBothWays(db, cut, x);
      SameRowHoldsTheSame(db, cut, x, username, hint);
    }
  }

  lemma PickedAcceptable(username: string, db: Db, cut: Db, snap: Snapshot, current: CallbackMap,
                         staleKeys: seq<string>)
    requires IsCut(db, cut, snap, current) && Enumerates(staleKeys, StaleKeys(snap, current))
    ensures Acceptable(username, cut, Pick(current, staleKeys)) <==> StalePublishable(username, db, snap, current)
  {
    hide IsCut, Publishable, Held, Blocked, Stale, WantedId, Slug;
    var added := Pick(current, staleKeys);
    forall k | k in StaleKeys(snap, current)
      ensures Held(username, cut, current[k]) <==> exists x :: Blocked(username, db, snap, current, k, x)
    {
      HeldIsBlocked(username, db, cut, snap, current, k);
    }
    if Acceptable(username, cut, added) {
      forall k | k in StaleKeys(snap, current)
        ensures Publishable(current[k]) && forall x :: !Blocked(username, db, snap, current, k, x)
      {
        var i :| 0 <= i < |staleKeys| && staleKeys[i] == k;
        assert Publishable(added[i]) && !Held(username, cut, added[i]);
      }
      forall k, l | k in StaleKeys(snap, current) && l in StaleKeys(snap, current)
        ensures !Clash(username, current[k], current[l])
      {
        var i :| 0 <= i < |staleKeys| && staleKeys[i] == k;
        var j :| 0 <= j < |staleKeys| && staleKeys[j] == l;
        assert i < j ==> !Clash(username, added[i], added[j]);
        assert j < i ==> !Clash(username, added[j], added[i]);
      }
      forall k, x ensures !Blocked(username, db, snap, current, k, x) {
        if Blocked(username, db, snap, current, k, x) { BlockedIsStale(username, db, snap, current, k, x); }
      }
    }
  }

  lemma BlockedIsStale(username: string, db: Db, snap: Snapshot, current: CallbackMap, k: string, x: string)
    requires Blocked(username, db, snap, current, k, x)
    ensures k in StaleKeys(snap, current)
  {}

  /** What the delete loop leaves if it gets through. */
  lemma DeletedIsCut(cfg: MaybeConfig, username: string, w: World, current: CallbackMap, removedKeys: seq<string>,
                     o: Oracle)
    requires Home(cfg, username, w.db) && Enumerates(removedKeys, RemovedKeys(w.snap, current))
    requires Deletes(cfg, username, w, current, removedKeys, o).ok
    ensures IsCut(w.db, Deletes(cfg, username, w, current, removedKeys, o).world.db, w.snap, current)
  {
    hide Home, DeleteLoop, Pick, IsRemoved;
    var removed := Pick(w.snap, removedKeys);
    DeleteLoopCuts(cfg, username, w, removed, o.deletes);
    forall x ensures x in RouteIds(removed) <==> IsRemoved(w.snap, current, x) {
      NamedIsRemoved(w.snap, current, removedKeys, x);
      NamedIsListed(removed, x);
    }
  }

  lemma NamedIsListed(removed: seq<SnapshotEntry>, x: string)
    ensures x in RouteIds(removed) <==> exists i :: 0 <= i < |removed| && removed[i].routeId == x
  {
    if i :| 0 <= i < |removed| && removed[i].routeId == x { assert removed[i] in removed; }
  }

  /** Any synchronisation that succeeds was unobstructed, and without faults being unobstructed is
      enough, in every order: every removed entry has its own route of the user to delete, every
      callback to publish has slugs and a port, no two of them clash, and no route that stays holds a
      hint. */
  lemma SuccessIsExact(cfg: MaybeConfig, username: string, w: World, current: CallbackMap,
                       removedKeys: seq<string>, staleKeys: seq<string>, o: Oracle)
    requires Home(cfg, username, w.db) && Orders(w.snap, current, removedKeys, staleKeys)
    ensures var ok := SyncInOrder(cfg, username, w, current, removedKeys, staleKeys, o).ok;
      && (ok ==> Unobstructed(username, w.db, w.snap, current))
      && (Faultless(o) && Unobstructed(username, w.db, w.snap, current) ==> ok)
  {
    hide Home, SyncInOrder, DeleteLoop, UpsertLoop, Deletable, Acceptable, RemovedInPlace, StalePublishable,
         Stale, IsCut, AllDeleted, AllPublished;
    SyncEnds(cfg, username, w, current, removedKeys, staleKeys, o);
    LoopsKeepHome(cfg, username, w, current, removedKeys, staleKeys, o);
    var deleted := Deletes(cfg, username, w, current, removedKeys, o);
    PickedDeletable(username, w.db, w.snap, current, removedKeys);
    DeleteLoopIsExact(cfg, username, w, Pick(w.snap, removedKeys), o.deletes);
    if deleted.ok {
      DeletedIsCut(cfg, username, w, current, removedKeys, o);
      PickedAcceptable(username, w.db, deleted.world.db, w.snap, current, staleKeys);
      UpsertLoopIsExact(cfg, username, deleted.world, Pick(current, staleKeys), o.upserts);
    }
  }

  /** While the hint is held, no synchronisation succeeds, in any order and under any faults. */
  lemma HeldHintBlocks(cfg: MaybeConfig, username: string, w: World, current: CallbackMap,
                       removedKeys: seq<string>, staleKeys: seq<string>, o: Oracle, k: string, x: string)
    requires Home(cfg, username, w.db) && Orders(w.snap, current, removedKeys, staleKeys)
    requires Blocked(username, w.db, w.snap, current, k, x)
    ensures !SyncInOrder(cfg, username, w, current, removedKeys, staleKeys, o).ok
  {
    hide Home, SyncInOrder, Orders, Blocked, RemovedInPlace, Clash, Publishable, StaleKeys;
    SuccessIsExact(cfg, username, w, current, removedKeys, staleKeys, o);
  }

  /** Two stale callbacks of different routes with the same slugged hint: no synchronisation succeeds. */
  lemma EqualHintsBlock(cfg: MaybeConfig, username: string, w: World, current: CallbackMap,
                        removedKeys: seq<string>, staleKeys: seq<string>, o: Oracle, k: string, l: string)
    requires Home(cfg, username, w.db) && Orders(w.snap, current, removedKeys, staleKeys)
    requires k in StaleKeys(w.snap, current) && l in StaleKeys(w.snap, current)
    requires Clash(username, current[k], current[l])
    ensures !SyncInOrder(cfg, username, w, current, removedKeys, staleKeys, o).ok
  {
    hide Home, SyncInOrder, Orders, Blocked, RemovedInPlace, Clash, Publishable, Stale;
    SuccessIsExact(cfg, username, w, current, removedKeys, staleKeys, o);
  }

  // ----- What a success leaves -----

  /** After a success, a row that is wanted anew is the row of a callback that wants it, one that is
      only removed is gone, and any other is as before. */
  lemma SuccessRow(cfg: MaybeConfig, username: string, w: World, current: CallbackMap,
                   removedKeys: seq<string>, staleKeys: seq<string>, o: Oracle, x: string)
    requires Home(cfg, username, w.db) && Orders(w.snap, current, removedKeys, staleKeys)
    requires SyncInOrder(cfg, username, w, current, removedKeys, staleKeys, o).ok
    ensures var after := SyncInOrder(cfg, username, w, current, removedKeys, staleKeys, o).world.db;
      if IsWantedAnew(username, w.snap, current, x) then WrittenFor(cfg, username, after, w.snap, current, x)
      else if IsRemoved(w.snap, current, x) then x !in after.routes
      else SameRow(w.db, after, x)
  {
    HomeFacts(cfg, username, w.db);
    hide Home, SyncInOrder, DeleteLoop, UpsertLoop, Stale, RowMap, IsRemoved, HasDomain, ValidUsername,
         WrittenFor, IsWantedAnew;
    SyncEnds(cfg, username, w, current, removedKeys, staleKeys, o);
    var deleted, added := Deletes(cfg, username, w, current, removedKeys, o).world, Pick(current, staleKeys);
    DeletedIsCut(cfg, username, w, current, removedKeys, o);
    UpsertLoopFiles(cfg, username, deleted, added, o.upserts);
    var after := SyncInOrder(cfg, username, w, current, removedKeys, staleKeys, o).world.db;
    PutRow(cfg, username, deleted.db, after, w.snap, current, staleKeys, x);
    CutRow(w.db, deleted.db, w.snap, current, x);
    hide IsCut;
  }

  ghost predicate WrittenFor(cfg: MaybeConfig, username: string, db: Db, snap: Snapshot, current: CallbackMap,
                             x: string) {
    exists k :: k in StaleKeys(snap, current) && IsRowOf(cfg, username, db, current[k], x)
  }

  lemma CutRow(before: Db, cut: Db, snap: Snapshot, current: CallbackMap, x: string)
    requires IsCut(before, cut, snap, current)
    ensures if IsRemoved(snap, current, x) then x !in cut.routes else SameRow(before, cut, x)
  {}

  lemma PutRow(cfg: MaybeConfig, username: string, db: Db, after: Db, snap: Snapshot, current: CallbackMap,
               staleKeys: seq<string>, x: string)
    requires HasDomain(cfg) && Enumerates(staleKeys, StaleKeys(snap, current))
    requires after == db.(routes := db.routes + RowMap(cfg, username, Pick(current, staleKeys)))
    ensures if IsWantedAnew(username, snap, current, x) then WrittenFor(cfg, username, after, snap, current, x)
            else SameRow(db, after, x)
  {
    hide RowMap, StaleKeys, WantedId, WantedRow, HasDomain, Enumerates, Pick, IsWantedAnew;
    PickedRow(cfg, username, snap, current, staleKeys, x);
  }

  lemma PickedRow(cfg: MaybeConfig, username: string, snap: Snapshot, current: CallbackMap,
                  staleKeys: seq<string>, x: string)
    requires HasDomain(cfg) && Enumerates(staleKeys, StaleKeys(snap, current))
    ensures var rows := RowMap(cfg, username, Pick(current, staleKeys));
      && (x in rows <==> IsWantedAnew(username, snap, current, x))
      && (x in rows ==> exists k ::
            k in StaleKeys(snap, current) && x == WantedId(username, current[k])
            && rows[x] == WantedRow(cfg, username, current[k]))
  {
    hide RowMap, Stale, WantedId, WantedRow, HasDomain;
    var added := Pick(current, staleKeys);
    var rows := RowMap(cfg, username, added);
    if x in rows {
      var j := RowMapFrom(cfg, username, added, x);
      assert staleKeys[j] in StaleKeys(snap, current);
    }
    if k :| k in StaleKeys(snap, current) && WantedId(username, current[k]) == x {
      var i :| 0 <= i < |staleKeys| && staleKeys[i] == k;
      RowMapHas(cfg, username, added, i);
    }
  }

  /** Callbacks that share a route ask for the same port. */
  predicate Agreeing(username: string, current: CallbackMap, keys: set<string>)
    requires keys <= current.Keys
  {
    forall k, l :: k in keys && l in keys ==> Agree(username, current[k], current[l])
  }

  predicate Agree(username: string, c: CallbackRoute, d: CallbackRoute) {
    WantedId(username, c) == WantedId(username, d) ==> c.localPort == d.localPort
  }

  /** Two tables that differ only where a synchronisation writes or deletes. */
  ghost predicate AlikeElsewhere(username: string, a: Db, b: Db, snap: Snapshot, current: CallbackMap) {
    && b == a.(routes := b.routes)
    && forall x :: IsRemoved(snap, current, x) || IsWantedAnew(username, snap, current, x) || SameRow(a, b, x)
  }

  lemma WrittenOnce(cfg: MaybeConfig, username: string, a: Db, b: Db, snap: Snapshot, current: CallbackMap, x: string)
    requires ValidUsername(username) && Agreeing(username, current, StaleKeys(snap, current))
    requires WrittenFor(cfg, username, a, snap, current, x) && WrittenFor(cfg, username, b, snap, current, x)
    ensures SameRow(a, b, x)
  {
    hide Stale, WantedId, WantedRow, HasDomain, ValidUsername;
    var k :| k in StaleKeys(snap, current) && IsRowOf(cfg, username, a, current[k], x);
    var l :| l in StaleKeys(snap, current) && IsRowOf(cfg, username, b, current[l], x);
    assert Agree(username, current[k], current[l]);
    SharedRow(cfg, username, current[k], current[l]);
  }

  /** Two successful synchronisations from tables that differ only where they write or delete end
      with the same tables, whatever orders they took and whatever they met. */
  lemma SuccessIsUnique(cfg: MaybeConfig, username: string, a: World, b: World, current: CallbackMap,
                        r: Round, s: Round)
    requires Home(cfg, username, a.db) && Home(cfg, username, b.db) && a.snap == b.snap
    requires Ordered(a.snap, current, [r, s]) && Agreeing(username, current, StaleKeys(a.snap, current))
    requires AlikeElsewhere(username, a.db, b.db, a.snap, current)
    requires Perform(cfg, username, a, current, r).ok && Perform(cfg, username, b, current, s).ok
    ensures Perform(cfg, username, a, current, r).world.db == Perform(cfg, username, b, current, s).world.db
  {
    HomeFacts(cfg, username, a.db);
    assert [r, s][0] == r && [r, s][1] == s;
    hide Home, SyncInOrder, Orders, Stale, HasDomain, ValidUsername, IsWantedAnew, IsRemoved, WrittenFor, Agreeing;
    SyncRow(cfg, username, a, current, r.removedKeys, r.staleKeys, r.oracle, "");
    SyncRow(cfg, username, b, current, s.removedKeys, s.staleKeys, s.oracle, "");
    var x, y := Perform(cfg, username, a, current, r).world.db, Perform(cfg, username, b, current, s).world.db;
    forall id ensures SameRow(x, y, id) {
      SuccessRow(cfg, username, a, current, r.removedKeys, r.staleKeys, r.oracle, id);
      SuccessRow(cfg, username, b, current, s.removedKeys, s.staleKeys, s.oracle, id);
      if IsWantedAnew(username, a.snap, current, id) { WrittenOnce(cfg, username, x, y, a.snap, current, id); }
    }
    SameRowsSameTable(x, y);
  }

  lemma SameRowsSameTable(a: Db, b: Db)
    requires b == a.(routes := b.routes) && forall id :: SameRow(a, b, id)
    ensures a == b
  {
    forall id ensures (id in a.routes <==> id in b.routes) && (id in a.routes ==> a.routes[id] == b.routes[id]) {
      assert SameRow(a, b, id);
    }
    assert a.routes == b.routes;
  }

  /** One attempt: the orders it takes and the faults it meets. */
  datatype Round = Round(removedKeys: seq<string>, staleKeys: seq<string>, oracle: Oracle)

  predicate Ordered(snap: Snapshot, current: CallbackMap, rounds: seq<Round>) {
    forall i :: 0 <= i < |rounds| ==> Orders(snap, current, rounds[i].removedKeys, rounds[i].staleKeys)
  }

  /** A synchronisation in the round's order; one whose orders do not fit the snapshot fails. */
  function Perform(cfg: MaybeConfig, username: string, w: World, current: CallbackMap, r: Round): Stage {
    if Orders(w.snap, current, r.removedKeys, r.staleKeys)
    then SyncInOrder(cfg, username, w, current, r.removedKeys, r.staleKeys, r.oracle) else Stage(w, false)
  }
}
