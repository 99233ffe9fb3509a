/** Configurations that change between synchronisations: what can be left behind, what stays left
    behind, and exactly when the table still follows the configuration. */
module Drift {
  import opened Text
  import opened State
  import opened Identity
  import opened Callbacks
  import opened Watcher
  import opened Reconcile
  import opened Readiness

  // ----- Rows that nothing tracks -----

  /** No entry of the snapshot names the route. */
  predicate Unnamed(snap: Snapshot, id: string) {
    forall k :: k in snap ==> snap[k].routeId != id
  }

  /** A plugin row of the user that no entry of the snapshot names. */
  predicate Orphan(username: string, db: Db, snap: Snapshot, id: string) {
    id in db.routes && Mine(username, db.routes[id]) && Unnamed(snap, id)
  }

  lemma {:induction false} DeleteLoopNamesNothingNew(cfg: MaybeConfig, username: string, w: World,
                                                     removed: seq<SnapshotEntry>, faults: seq<Fault>, x: string)
    requires Unnamed(w.snap, x)
    ensures Unnamed(DeleteLoop(cfg, username, w, removed, faults).world.snap, x)
    decreases |removed|
  {
    hide RemoteDelete, EntryKey;
    if removed != [] {
      var e := removed[0];
      if e.routeId == "" {
        DeleteLoopNamesNothingNew(cfg, username, w, removed[1..], faults, x);
      } else {
        var d := RemoteDelete(cfg, username, w.db, e.routeId, Head(faults, NoFault));
        DeleteLoopNamesNothingNew(cfg, username, w.(db := d.db, snap := w.snap - {EntryKey(e)}), removed[1..],
            Tail(faults), x);
      }
    }
  }

  lemma {:induction false} UpsertLoopNamesWanted(cfg: MaybeConfig, username: string, w: World,
                                                 added: seq<CallbackRoute>, faults: seq<UpsertFault>, x: string)
    requires HasDomain(cfg) && (forall i :: 0 <= i < |added| ==> WantedId(username, added[i]) != x)
    requires Unnamed(w.snap, x)
    ensures Unnamed(UpsertLoop(cfg, username, w, added, faults).world.snap, x)
    decreases |added|
  {
    hide RemoteUpsert, SetCallback, KeyOf, WantedId, HasDomain, WantedRow;
    if added != [] {
      var c, f := added[0], Head(faults, SMOOTH);
      var reply := RemoteUpsert(cfg, username, w.db, c, f.remote);
      UpsertTouches(cfg, username, w.db, c, f.remote, x);
      WantedRowShape(cfg, username, c);
      forall i | 0 <= i < |added[1..]| ensures WantedId(username, added[1..][i]) != x {
        assert added[1..][i] == added[i + 1];
      }
      if reply.route.Some? && f.writer == Written {
        UpsertLoopNamesWanted(cfg, username, Next(w, c, f, reply.db, reply.route.value), added[1..], Tail(faults), x);
      }
    }
  }

  /** An orphan that no callback wants survives a synchronisation unchanged, in any order and under
      any faults, and is an orphan still. */
  lemma OrphanStays(cfg: MaybeConfig, username: string, w: World, current: CallbackMap,
                    removedKeys: seq<string>, staleKeys: seq<string>, o: Oracle, id: string)
    requires HasDomain(cfg) && Orders(w.snap, current, removedKeys, staleKeys)
    requires Orphan(username, w.db, w.snap, id) && !IsWanted(username, current, id)
    ensures var after := SyncInOrder(cfg, username, w, current, removedKeys, staleKeys, o).world;
      Orphan(username, after.db, after.snap, id) && SameRow(w.db, after.db, id)
  {
    hide DeleteLoop, UpsertLoop, WantedId, Stale, HasDomain, Mine;
    assert Unnamed(w.snap, id) && !IsRemoved(w.snap, current, id);
    hide Unnamed;
    SyncTouches(cfg, username, w, current, removedKeys, staleKeys, o, id);
    var removed, added := Pick(w.snap, removedKeys), Pick(current, staleKeys);
    DeleteLoopNamesNothingNew(cfg, username, w, removed, o.deletes, id);
    forall i | 0 <= i < |added| ensures WantedId(username, added[i]) != id { assert staleKeys[i] in current; }
    var deleted := DeleteLoop(cfg, username, w, removed, o.deletes).world;
    UpsertLoopNamesWanted(cfg, username, deleted, added, o.upserts, id);
  }

  // ----- Turns on changing configurations -----

  /** One synchronisation on some configuration, in some order, with any faults. */
  datatype Turn = Turn(entries: Entries, current: CallbackMap, removedKeys: seq<string>,
                       staleKeys: seq<string>, oracle: Oracle)

  predicate InOrder(snap: Snapshot, t: Turn) { Orders(snap, t.current, t.removedKeys, t.staleKeys) }

  function TakeTurn(cfg: MaybeConfig, username: string, w: World, t: Turn): Stage
    requires InOrder(w.snap, t)
  {
    SyncInOrder(cfg, username, w.(entries := t.entries), t.current, t.removedKeys, t.staleKeys, t.oracle)
  }

  predicate Turns(cfg: MaybeConfig, username: string, w: World, turns: seq<Turn>)
    decreases |turns|
  {
    turns != [] ==>
          InOrder(w.snap, turns[0]) && Turns(cfg, username, TakeTurn(cfg, username, w, turns[0]).world, turns[1..])
  }

  function TakeTurns(cfg: MaybeConfig, username: string, w: World, turns: seq<Turn>): World
    requires Turns(cfg, username, w, turns)
    decreases |turns|
  {
    if turns == [] then w else TakeTurns(cfg, username, TakeTurn(cfg, username, w, turns[0]).world, turns[1..])
  }

  /** The same through any number of synchronisations on any configurations, as long as none of them
      wants exactly that callback again. */
  lemma {:induction false} OrphanForever(cfg: MaybeConfig, username: string, w: World, turns: seq<Turn>, id: string)
    requires HasDomain(cfg) && Turns(cfg, username, w, turns) && Orphan(username, w.db, w.snap, id)
    requires forall i :: 0 <= i < |turns| ==> !IsWanted(username, turns[i].current, id)
    ensures var end := TakeTurns(cfg, username, w, turns);
      Orphan(username, end.db, end.snap, id) && SameRow(w.db, end.db, id)
    decreases |turns|
  {
    hide HasDomain, Orphan, IsWanted, SyncInOrder, Orders;
    if turns != [] {
      var t := turns[0];
      OrphanStays(cfg, username, w.(entries := t.entries), t.current, t.removedKeys, t.staleKeys, t.oracle, id);
      forall i | 0 <= i < |turns[1..]| ensures !IsWanted(username, turns[1..][i].current, id) {
        assert turns[1..][i] == turns[i + 1];
      }
      OrphanForever(cfg, username, TakeTurn(cfg, username, w, t).world, turns[1..], id);
    }
  }

  /** A row that a callback wants and that needs no publication, as the snapshot has it, is not touched
      unless another callback or a removed entry shares the route: if it is missing or has another
      port, every further synchronisation on that configuration leaves it so. */
  lemma DisplacedStays(cfg: MaybeConfig, username: string, w: World, current: CallbackMap,
                       removedKeys: seq<string>, staleKeys: seq<string>, o: Oracle, k: string)
    requires Tracked(cfg, username, w.snap) && Keyed(current) && Orders(w.snap, current, removedKeys, staleKeys)
    requires k in current && !Stale(w.snap, k, current[k])
    requires var id := WantedId(username, current[k]);
      !IsRemoved(w.snap, current, id) && !IsWantedAnew(username, w.snap, current, id)
    ensures var after := SyncInOrder(cfg, username, w, current, removedKeys, staleKeys, o).world;
      SameRow(w.db, after.db, WantedId(username, current[k])) && !Stale(after.snap, k, current[k])
  {
    assert HasDomain(cfg);
    hide WantedId, SyncInOrder, IsRemoved, IsWantedAnew, Tracked, Keyed, Orders, HasDomain, Stale, SnapshotOf, SameRow;
    SyncTouches(cfg, username, w, current, removedKeys, staleKeys, o, WantedId(username, current[k]));
    SyncKeepsTracked(cfg, username, w, current, removedKeys, staleKeys, o);
    if SyncInOrder(cfg, username, w, current, removedKeys, staleKeys, o).ok {
      SuccessSavesTheWanted(cfg, username, w, current, removedKeys, staleKeys, o);
      SavedIsNotStale(cfg, username, current, k);
    }
  }

  /** If a removed entry shares the route of a callback that needs no publication, any success takes that
      route away while the snapshot goes on showing it as published. */
  lemma SharedRouteGoes(cfg: MaybeConfig, username: string, w: World, current: CallbackMap,
                        removedKeys: seq<string>, staleKeys: seq<string>, o: Oracle, k: string)
    requires Home(cfg, username, w.db) && Tracked(cfg, username, w.snap) && Keyed(current)
    requires Orders(w.snap, current, removedKeys, staleKeys)
    requires SyncInOrder(cfg, username, w, current, removedKeys, staleKeys, o).ok
    requires k in current && !Stale(w.snap, k, current[k])
    requires var id := WantedId(username, current[k]);
      IsRemoved(w.snap, current, id) && !IsWantedAnew(username, w.snap, current, id)
    ensures var after := SyncInOrder(cfg, username, w, current, removedKeys, staleKeys, o).world;
      WantedId(username, current[k]) !in after.db.routes && !Stale(after.snap, k, current[k])
  {
    assert HasDomain(cfg);
    hide Home, WantedId, SyncInOrder, IsRemoved, IsWantedAnew, Tracked, Keyed, Orders, HasDomain, Stale, SnapshotOf;
    SuccessRow(cfg, username, w, current, removedKeys, staleKeys, o, WantedId(username, current[k]));
    SuccessSavesTheWanted(cfg, username, w, current, removedKeys, staleKeys, o);
    SavedIsNotStale(cfg, username, current, k);
  }

  lemma SavedIsNotStale(cfg: MaybeConfig, username: string, current: CallbackMap, k: string)
    requires HasDomain(cfg) && k in current
    ensures !Stale(SnapshotOf(cfg, username, current), k, current[k])
  {
    hide WantedRow;
  }

  // ----- The run theorem -----

  lemma {:induction false} TurnsKeepHome(cfg: MaybeConfig, username: string, w: World, turns: seq<Turn>)
    requires Home(cfg, username, w.db) && Turns(cfg, username, w, turns)
    ensures var end := TakeTurns(cfg, username, w, turns);
      Home(cfg, username, end.db) && OthersSame(username, w.db, end.db)
    decreases |turns|
  {
    hide Home, SyncInOrder, Orders, OthersSame, RowBetween;
    if turns == [] {
      OthersSameAtStart(username, w.db);
    } else {
      var t := turns[0];
      var next := TakeTurn(cfg, username, w, t).world;
      SyncStaysBetween(cfg, username, w.(entries := t.entries), t.current, t.removedKeys, t.staleKeys, t.oracle);
      TurnsKeepHome(cfg, username, next, turns[1..]);
      OthersSameTwice(username, w.db, next.db, TakeTurns(cfg, username, w, turns).db);
    }
  }

  /** After any synchronisations on any configurations, in any order and with any faults, a faultless
      one succeeds and puts the table in step with its configuration if and only if it starts ready.
      Rows that are none of the user's plugin rows never change. */
  lemma TableFollowsConfiguration(cfg: MaybeConfig, username: string, w: World, turns: seq<Turn>, last: Turn)
    requires Home(cfg, username, w.db) && Turns(cfg, username, w, turns)
    requires InOrder(TakeTurns(cfg, username, w, turns).snap, last) && Faultless(last.oracle)
    ensures var before := TakeTurns(cfg, username, w, turns);
      var s := TakeTurn(cfg, username, before, last);
      && (s.ok && InStep(username, s.world.db, last.current)
          <==> Ready(username, before.db, before.snap, last.current))
      && OthersSame(username, w.db, s.world.db)
  {
    hide Home, Orders, SyncInOrder, OthersSame, InStep, Ready, Faultless, TakeTurns, Turns, RowBetween;
    TurnsKeepHome(cfg, username, w, turns);
    var before := TakeTurns(cfg, username, w, turns);
    var start := before.(entries := last.entries);
    FaultlessIsExact(cfg, username, start, last.current, last.removedKeys, last.staleKeys, last.oracle);
    SyncStaysBetween(cfg, username, start, last.current, last.removedKeys, last.staleKeys, last.oracle);
    OthersSameTwice(username, w.db, before.db, TakeTurn(cfg, username, before, last).world.db);
  }

  predicate AllKeyed(turns: seq<Turn>) { forall i :: 0 <= i < |turns| ==> Keyed(turns[i].current) }

  lemma {:induction false} TurnsKeepTrack(cfg: MaybeConfig, username: string, w: World, turns: seq<Turn>)
    requires Tracked(cfg, username, w.snap) && Turns(cfg, username, w, turns) && AllKeyed(turns)
    ensures Tracked(cfg, username, TakeTurns(cfg, username, w, turns).snap)
    decreases |turns|
  {
    hide Tracked, Keyed, SyncInOrder, Orders;
    if turns != [] {
      var t := turns[0];
      SyncKeepsTracked(cfg, username, w.(entries := t.entries), t.current, t.removedKeys, t.staleKeys, t.oracle);
      forall i | 0 <= i < |turns[1..]| ensures Keyed(turns[1..][i].current) { assert turns[1..][i] == turns[i + 1]; }
      TurnsKeepTrack(cfg, username, TakeTurn(cfg, username, w, t).world, turns[1..]);
    }
  }

  /** After any synchronisations with any faults, the next one that succeeds saves exactly the callbacks
      of its configuration. */
  lemma TurnsSaveTheWanted(cfg: MaybeConfig, username: string, w: World, turns: seq<Turn>, last: Turn)
    requires Tracked(cfg, username, w.snap) && Turns(cfg, username, w, turns) && AllKeyed(turns)
    requires Keyed(last.current) && InOrder(TakeTurns(cfg, username, w, turns).snap, last)
    requires TakeTurn(cfg, username, TakeTurns(cfg, username, w, turns), last).ok
    ensures HasDomain(cfg)
    ensures TakeTurn(cfg, username, TakeTurns(cfg, username, w, turns), last).world.snap
      == SnapshotOf(cfg, username, last.current)
  {
    assert HasDomain(cfg);
    hide Tracked, Keyed, SyncInOrder, Orders, TakeTurns, Turns, SnapshotOf, HasDomain;
    TurnsKeepTrack(cfg, username, w, turns);
    var start := TakeTurns(cfg, username, w, turns).(entries := last.entries);
    SuccessSavesTheWanted(cfg, username, start, last.current, last.removedKeys, last.staleKeys, last.oracle);
  }

  /** What is in step is mirrored, so after a success from a ready start the next synchronisation starts
      ready exactly for the configurations that can be served, unless two callbacks share a route. */
  lemma InStepIsReadyForAnything(cfg: MaybeConfig, username: string, w: World, t: Turn, next: CallbackMap)
    requires Home(cfg, username, w.db) && Tracked(cfg, username, w.snap) && Keyed(t.current) && Keyed(next)
    requires InOrder(w.snap, t) && Ready(username, w.db, w.snap, t.current) && TakeTurn(cfg, username, w, t).ok
    requires NoneShared(username, t.current)
    ensures var after := TakeTurn(cfg, username, w, t).world;
      Ready(username, after.db, after.snap, next) <==> Servable(username, after.db, after.snap, next)
  {
    hide Home, Tracked, Keyed, SyncInOrder, Ready, SnapshotOf, Faultless, Mirrors, AllApart, NoneShared, HasDomain,
         Servable, OthersSame, InStep;
    var start := w.(entries := t.entries);
    SyncReconciles(cfg, username, start, t.current, t.removedKeys, t.staleKeys, t.oracle);
    SyncKeepsHome(cfg, username, start, t.current, t.removedKeys, t.staleKeys, t.oracle);
    var after := TakeTurn(cfg, username, w, t).world;
    MirrorIsReady(cfg, username, after.db, after.snap, next);
  }
}
