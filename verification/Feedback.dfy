/** The watcher reacts to its own writes: when it comes to rest, and when it never does. */
module Feedback {
  import opened Text
  import opened State
  import opened Identity
  import opened Callbacks
  import opened Watcher
  import opened Reconcile
  import opened Readiness
  import opened Retry
  import Api
  import Debounce

  // ----- What a synchronisation writes -----

  /** The fields of the configuration that one write-back sets. */
  function FieldsWritten(f: WriterFault): nat {
    match f case UrlFails => 0 case PortFails => 1 case Written => 2
  }

  function LoopWrites(cfg: MaybeConfig, username: string, w: World, added: seq<CallbackRoute>,
                      faults: seq<UpsertFault>): nat
    decreases |added|
  {
    if added == [] then 0
    else
      var c, f := added[0], Head(faults, SMOOTH);
      var reply := RemoteUpsert(cfg, username, w.db, c, f.remote);
      if reply.route.None? then 0
      else
        FieldsWritten(f.writer)
        + if f.writer != Written then 0
          else LoopWrites(cfg, username, Next(w, c, f, reply.db, reply.route.value), added[1..], Tail(faults))
  }

  /** How many fields of the configuration a synchronisation sets. */
  function Writes(cfg: MaybeConfig, username: string, w: World, current: CallbackMap, r: Round): nat
    requires Orders(w.snap, current, r.removedKeys, r.staleKeys)
  {
    var deleted := Deletes(cfg, username, w, current, r.removedKeys, r.oracle);
    if !r.oracle.read || !deleted.ok then 0
    else LoopWrites(cfg, username, deleted.world, Pick(current, r.staleKeys), r.oracle.upserts)
  }

  /** A synchronisation that wrote nothing left the configuration as it was. */
  lemma {:induction false} NothingWritten(cfg: MaybeConfig, username: string, w: World, added: seq<CallbackRoute>,
                                          faults: seq<UpsertFault>)
    requires LoopWrites(cfg, username, w, added, faults) == 0
    ensures UpsertLoop(cfg, username, w, added, faults).world.entries == w.entries
    decreases |added|
  {
    hide RemoteUpsert, ConfigSet, KeyOf, PublishedEntry;
  }

  // ----- Passes over the configuration as it is at the time -----

  /** One synchronisation: the callbacks discovery finds, the orders and the faults. */
  datatype Pass = Pass(current: CallbackMap, round: Round)

  /** The pass is about what discovery finds in the configuration at that moment; a port out of range ends
      it before it looks any further. */
  predicate Fits(w: World, p: Pass) {
    || Broken(w.entries)
    || (IsCurrent(p.current, w.entries) && Orders(w.snap, p.current, p.round.removedKeys, p.round.staleKeys))
  }

  function TakePass(cfg: MaybeConfig, username: string, w: World, p: Pass): Stage
    requires Fits(w, p)
  {
    if Broken(w.entries) then Stage(w, false) else Perform(cfg, username, w, p.current, p.round)
  }

  /** How many fields of the configuration the pass sets. */
  function PassWrites(cfg: MaybeConfig, username: string, w: World, p: Pass): nat
    requires Fits(w, p)
  {
    if Broken(w.entries) then 0 else Writes(cfg, username, w, p.current, p.round)
  }

  /** No write of the pass overwrites what discovery reads. */
  predicate PassSpares(cfg: MaybeConfig, username: string, w: World, p: Pass)
    requires Fits(w, p)
  {
    !Broken(w.entries) ==> SyncSpares(cfg, username, w, p.current, p.round)
  }

  /** Each pass starts where the one before stopped and discovers the callbacks anew. */
  predicate Chain(cfg: MaybeConfig, username: string, w: World, passes: seq<Pass>)
    decreases |passes|
  {
    passes != [] ==>
      && Fits(w, passes[0])
      && Chain(cfg, username, TakePass(cfg, username, w, passes[0]).world, passes[1..])
  }

  /** The synchronisations the watcher makes, each after the first because the one before wrote to the
      configuration, as long as passes are supplied. */
  function Cascade(cfg: MaybeConfig, username: string, w: World, passes: seq<Pass>): nat
    requires Chain(cfg, username, w, passes)
    decreases |passes|
  {
    if passes == [] then 0
    else if PassWrites(cfg, username, w, passes[0]) == 0 then 1
    else 1 + Cascade(cfg, username, TakePass(cfg, username, w, passes[0]).world, passes[1..])
  }

  /** No pass of the chain succeeds. */
  predicate NoneSucceeds(cfg: MaybeConfig, username: string, w: World, passes: seq<Pass>)
    requires Chain(cfg, username, w, passes)
    decreases |passes|
  {
    passes != [] ==>
      && !TakePass(cfg, username, w, passes[0]).ok
      && NoneSucceeds(cfg, username, TakePass(cfg, username, w, passes[0]).world, passes[1..])
  }

  predicate AllSucceed(cfg: MaybeConfig, username: string, w: World, passes: seq<Pass>)
    requires Chain(cfg, username, w, passes)
    decreases |passes|
  {
    passes != [] ==>
      && TakePass(cfg, username, w, passes[0]).ok
      && AllSucceed(cfg, username, TakePass(cfg, username, w, passes[0]).world, passes[1..])
  }

  predicate AllSpare(cfg: MaybeConfig, username: string, w: World, passes: seq<Pass>)
    requires Chain(cfg, username, w, passes)
    decreases |passes|
  {
    passes != [] ==>
      && PassSpares(cfg, username, w, passes[0])
      && AllSpare(cfg, username, TakePass(cfg, username, w, passes[0]).world, passes[1..])
  }

  /** With harmless keys every pass of every chain spares what discovery reads. */
  lemma {:induction false} HarmlessKeysSpare(cfg: MaybeConfig, username: string, w: World, passes: seq<Pass>)
    requires Chain(cfg, username, w, passes) && HarmlessKeys(w.entries)
    ensures AllSpare(cfg, username, w, passes)
    decreases |passes|
  {
    hide Broken, IsCurrent, Orders, HarmlessKeys, Perform, SyncSpares;
    if passes != [] {
      var p := passes[0];
      if !Broken(w.entries) { SyncKeepsWanted(cfg, username, w, p.current, p.round); }
      HarmlessKeysSpare(cfg, username, TakePass(cfg, username, w, p).world, passes[1..]);
    }
  }

  /** Discovery works and finds these callbacks, and no plugin ID holds a NUL. */
  predicate Finds(w: World, current: CallbackMap) {
    !Broken(w.entries) && NulFree(w.entries) && IsCurrent(current, w.entries)
  }

  /** After a pass that spares what discovery reads, the next pass is about the same callbacks. */
  lemma FoundAgain(cfg: MaybeConfig, username: string, w: World, p: Pass)
    requires Fits(w, p) && Finds(w, p.current) && PassSpares(cfg, username, w, p)
    ensures Finds(TakePass(cfg, username, w, p).world, p.current)
  {
    hide Broken, Wanted, Orders, Perform, SyncSpares, AsksTheSame, KeyOf;
    SparedIsFoundAgain(cfg, username, w, p.current, p.round);
    var after := Perform(cfg, username, w, p.current, p.round).world.entries;
    SameWantedSameCurrent(p.current, w.entries, after);
  }

  lemma SameFinding(w: World, a: CallbackMap, p: Pass)
    requires Finds(w, a) && Fits(w, p)
    ensures p.current == a
  {
    hide Broken, Wanted, Orders, KeyOf, NulFree;
    CurrentIsUnique(a, p.current, w.entries);
  }

  // ----- Rest after a success -----

  lemma NoStaleNoWrites(cfg: MaybeConfig, username: string, w: World, current: CallbackMap, r: Round)
    requires Orders(w.snap, current, r.removedKeys, r.staleKeys) && r.staleKeys == []
    ensures Writes(cfg, username, w, current, r) == 0
  {
    hide DeleteLoop;
  }

  lemma TwoAtMost(cfg: MaybeConfig, username: string, w: World, passes: seq<Pass>)
    requires Chain(cfg, username, w, passes) && passes != []
    requires |passes| > 1 && PassWrites(cfg, username, w, passes[0]) != 0 ==>
      Fits(TakePass(cfg, username, w, passes[0]).world, passes[1])
      && PassWrites(cfg, username, TakePass(cfg, username, w, passes[0]).world, passes[1]) == 0
    ensures Cascade(cfg, username, w, passes) <= 2
  {
    hide Fits, PassWrites, TakePass;
    if |passes| > 1 { assert passes[1..][0] == passes[1]; }
  }

  lemma SecondFits(cfg: MaybeConfig, username: string, w: World, passes: seq<Pass>)
    requires Chain(cfg, username, w, passes) && |passes| > 1
    ensures Fits(TakePass(cfg, username, w, passes[0]).world, passes[1])
  {
    hide Fits, TakePass;
    assert passes[1..][0] == passes[1];
  }

  /** Once a synchronisation succeeds, whatever it met, and overwrites nothing that discovery reads, the
      one its writes trigger writes nothing: the watcher is at rest after at most one more. */
  lemma RestAfterSuccess(cfg: MaybeConfig, username: string, w: World, passes: seq<Pass>)
    requires Tracked(cfg, username, w.snap) && Chain(cfg, username, w, passes) && passes != []
    requires TakePass(cfg, username, w, passes[0]).ok
    requires NulFree(w.entries) && PassSpares(cfg, username, w, passes[0])
    ensures Cascade(cfg, username, w, passes) <= 2
  {
    var p, r := passes[0], passes[0].round;
    assert HasDomain(cfg) && Finds(w, p.current);
    hide Tracked, Keyed, SyncInOrder, Orders, Writes, SnapshotOf, HasDomain, PassSpares, Finds, Broken, NulFree,
         IsCurrent, StaleKeys, Cascade;
    FoundIsKeyed(w, p.current);
    SuccessSavesTheWanted(cfg, username, w, p.current, r.removedKeys, r.staleKeys, r.oracle);
    FoundAgain(cfg, username, w, p);
    var after := TakePass(cfg, username, w, p).world;
    NothingStale(cfg, username, p.current);
    if |passes| > 1 {
      SecondFits(cfg, username, w, passes);
      SameFinding(after, p.current, passes[1]);
      NothingMoreToWrite(cfg, username, after, passes[1]);
    }
    TwoAtMost(cfg, username, w, passes);
  }

  lemma FoundIsKeyed(w: World, current: CallbackMap)
    requires Finds(w, current)
    ensures Keyed(current)
  {
    CurrentIsKeyed(current, w.entries);
  }

  lemma NothingMoreToWrite(cfg: MaybeConfig, username: string, w: World, p: Pass)
    requires Fits(w, p) && StaleKeys(w.snap, p.current) == {}
    ensures PassWrites(cfg, username, w, p) == 0
  {
    hide Writes, Broken, IsCurrent, StaleKeys, RemovedKeys;
    if !Broken(w.entries) {
      ListingOfNothing(p.round.staleKeys, StaleKeys(w.snap, p.current));
      NoStaleNoWrites(cfg, username, w, p.current, p.round);
    }
  }

  // ----- No rest while blocked -----

  /** If its row is there, no other route holds the hint of a callback. */
  lemma HolderIsUnique(cfg: MaybeConfig, username: string, db: Db, c: CallbackRoute)
    requires Home(cfg, username, db) && WantedId(username, c) in db.routes
    ensures !Held(username, db, c)
  {
    HomeFacts(cfg, username, db);
    hide Home, Slug, WantedId, Api.HoldsHint, HasDomain, ValidUsername;
    var id, hint := WantedId(username, c), Slug(c.hostnameHint);
    WantedHostname(cfg, username, db, c);
    forall x | x in db.routes && x != id ensures !Api.HoldsHint(db, x, username, hint) {
      HostnamesDiffer(cfg, username, db, x, id);
      if Api.HoldsHint(db, x, username, hint) { HolderHostname(cfg, username, db, x, c.hostnameHint); }
    }
  }

  /** The first of the callbacks is accepted, written back, and its row stays. */
  lemma FirstIsWritten(cfg: MaybeConfig, username: string, w: World, added: seq<CallbackRoute>,
                       faults: seq<UpsertFault>)
    requires Home(cfg, username, w.db) && added != [] && AllPublished(faults)
    requires Publishable(added[0]) && !Held(username, w.db, added[0])
    ensures LoopWrites(cfg, username, w, added, faults) >= 2
    ensures WantedId(username, added[0]) in UpsertLoop(cfg, username, w, added, faults).world.db.routes
  {
    HomeFacts(cfg, username, w.db);
    TailPublished(faults);
    hide Home, RemoteUpsert, Publishable, Held, HasDomain, ValidUsername, WantedRow, WantedId, SetCallback, KeyOf,
         PublishedEntry, AllPublished, Head, Tail;
    var c, f := added[0], Head(faults, SMOOTH);
    var reply := RemoteUpsert(cfg, username, w.db, c, f.remote);
    WantedIsAccepted(cfg, username, w.db, c, f.remote);
    UpsertTouches(cfg, username, w.db, c, f.remote, "");
    WantedRowShape(cfg, username, c);
    var next := Next(w, c, f, reply.db, reply.route.value);
    UpsertLoopRow(cfg, username, next, added[1..], Tail(faults), WantedId(username, c));
  }

  /** A first callback that cannot be published ends the loop before anything is written. */
  lemma FirstIsRefused(cfg: MaybeConfig, username: string, w: World, added: seq<CallbackRoute>,
                       faults: seq<UpsertFault>)
    requires Home(cfg, username, w.db) && added != []
    requires !Publishable(added[0]) || Held(username, w.db, added[0])
    ensures LoopWrites(cfg, username, w, added, faults) == 0
  {
    hide Home, RemoteUpsert, Publishable, Held;
    WantedIsAccepted(cfg, username, w.db, added[0], Head(faults, SMOOTH).remote);
  }

  /** Something stands in the way of a complete synchronisation. */
  ghost predicate Stuck(cfg: MaybeConfig, username: string, w: World, current: CallbackMap) {
    && Home(cfg, username, w.db) && Tracked(cfg, username, w.snap)
    && !Unobstructed(username, w.db, w.snap, current)
  }

  /** What is to be deleted can be, and then the callback visited first can be published. */
  ghost predicate Opens(username: string, db: Db, snap: Snapshot, current: CallbackMap, r: Round) {
    && RemovedInPlace(username, db, snap, current)
    && r.staleKeys != [] && r.staleKeys[0] in current && Publishable(current[r.staleKeys[0]])
    && forall x :: !Blocked(username, db, snap, current, r.staleKeys[0], x)
  }

  /** A synchronisation without faults writes to the configuration exactly if it opens. */
  lemma WritesExactly(cfg: MaybeConfig, username: string, w: World, current: CallbackMap, r: Round)
    requires Home(cfg, username, w.db) && Faultless(r.oracle)
    requires Orders(w.snap, current, r.removedKeys, r.staleKeys)
    ensures Writes(cfg, username, w, current, r) != 0 <==> Opens(username, w.db, w.snap, current, r)
  {
    hide Home, Stale, Publishable, Held, Blocked, AllDeleted, AllPublished, UpsertLoop, LoopWrites, RemovedInPlace,
         DeleteLoop, Deletable, IsCut, IsRemoved;
    var deleted := Deletes(cfg, username, w, current, r.removedKeys, r.oracle);
    PickedDeletable(username, w.db, w.snap, current, r.removedKeys);
    DeleteLoopIsExact(cfg, username, w, Pick(w.snap, r.removedKeys), r.oracle.deletes);
    if deleted.ok {
      LoopsKeepHome(cfg, username, w, current, r.removedKeys, r.staleKeys, r.oracle);
      DeletedIsCut(cfg, username, w, current, r.removedKeys, r.oracle);
      var added := Pick(current, r.staleKeys);
      if added == [] {
        NoStaleNoWrites(cfg, username, w, current, r);
      } else {
        HeldIsBlocked(username, w.db, deleted.world.db, w.snap, current, r.staleKeys[0]);
        if Publishable(added[0]) && !Held(username, deleted.world.db, added[0]) {
          FirstIsWritten(cfg, username, deleted.world, added, r.oracle.upserts);
        } else {
          FirstIsRefused(cfg, username, deleted.world, added, r.oracle.upserts);
        }
      }
    }
  }

  /** While stuck, a synchronisation that meets no fault fails, keeps the snapshot and is stuck
      afterwards; it writes to the configuration exactly if it opens. */
  lemma StuckStays(cfg: MaybeConfig, username: string, w: World, current: CallbackMap, r: Round)
    requires Stuck(cfg, username, w, current) && Faultless(r.oracle)
    requires Orders(w.snap, current, r.removedKeys, r.staleKeys)
    ensures var s := Perform(cfg, username, w, current, r);
      && !s.ok && s.world.snap == w.snap && Stuck(cfg, username, s.world, current)
      && (Writes(cfg, username, w, current, r) != 0 <==> Opens(username, w.db, w.snap, current, r))
  {
    hide Home, Tracked, SyncInOrder, Unobstructed, Stale, Stranded, AllDeleted, AllPublished, Writes, Opens;
    SuccessIsExact(cfg, username, w, current, r.removedKeys, r.staleKeys, r.oracle);
    SyncEnds(cfg, username, w, current, r.removedKeys, r.staleKeys, r.oracle);
    SyncKeepsHome(cfg, username, w, current, r.removedKeys, r.staleKeys, r.oracle);
    AbortUnobstructed(cfg, username, w, current, r);
    WritesExactly(cfg, username, w, current, r);
  }

  predicate AllFaultless(passes: seq<Pass>) { forall i :: 0 <= i < |passes| ==> Faultless(passes[i].round.oracle) }

  lemma RestFaultless(passes: seq<Pass>)
    requires passes != [] && AllFaultless(passes)
    ensures Faultless(passes[0].round.oracle) && AllFaultless(passes[1..])
  {
    hide Faultless;
  }

  /** Each pass but the last finds a configuration without a port out of range, and opens. */
  ghost predicate AllOpen(cfg: MaybeConfig, username: string, w: World, passes: seq<Pass>)
    requires Chain(cfg, username, w, passes)
    decreases |passes|
  {
    |passes| > 1 ==>
      && !Broken(w.entries) && Opens(username, w.db, w.snap, passes[0].current, passes[0].round)
      && AllOpen(cfg, username, TakePass(cfg, username, w, passes[0]).world, passes[1..])
  }

  lemma PassIsExact(cfg: MaybeConfig, username: string, w: World, p: Pass)
    requires Home(cfg, username, w.db) && Fits(w, p) && Faultless(p.round.oracle)
    ensures Home(cfg, username, TakePass(cfg, username, w, p).world.db)
    ensures PassWrites(cfg, username, w, p) != 0
      <==> !Broken(w.entries) && Opens(username, w.db, w.snap, p.current, p.round)
  {
    hide Home, SyncInOrder, Orders, Writes, Broken, IsCurrent, Faultless, Opens;
    if !Broken(w.entries) {
      WritesExactly(cfg, username, w, p.current, p.round);
      SyncKeepsHome(cfg, username, w, p.current, p.round.removedKeys, p.round.staleKeys, p.round.oracle);
    }
  }

  /** From any reachable tables, with any snapshot and any configuration, whatever the watcher's own writes
      make of it: without faults each synchronisation causes the next one, for as many passes as there are,
      exactly as long as they open. */
  lemma {:induction false} GoesOnExactly(cfg: MaybeConfig, username: string, w: World, passes: seq<Pass>)
    requires Home(cfg, username, w.db) && Chain(cfg, username, w, passes) && AllFaultless(passes)
    ensures Cascade(cfg, username, w, passes) == |passes| <==> AllOpen(cfg, username, w, passes)
    decreases |passes|
  {
    hide Home, Fits, TakePass, PassWrites, Faultless, AllFaultless, Opens, Broken;
    if passes != [] {
      RestFaultless(passes);
      PassIsExact(cfg, username, w, passes[0]);
      GoesOnExactly(cfg, username, TakePass(cfg, username, w, passes[0]).world, passes[1..]);
    }
  }

  /** While stuck, with no fault at all and writes that spare what discovery reads, no synchronisation
      succeeds, and yet each causes the next one exactly as long as they open. */
  lemma {:induction false} StuckNeverRests(cfg: MaybeConfig, username: string, w: World, current: CallbackMap,
                                           passes: seq<Pass>)
    requires Stuck(cfg, username, w, current) && Finds(w, current)
    requires Chain(cfg, username, w, passes) && AllFaultless(passes) && AllSpare(cfg, username, w, passes)
    ensures NoneSucceeds(cfg, username, w, passes)
    ensures Cascade(cfg, username, w, passes) == |passes| <==> AllOpen(cfg, username, w, passes)
    decreases |passes|
  {
    assert Home(cfg, username, w.db);
    GoesOnExactly(cfg, username, w, passes);
    if passes != [] {
      var p := passes[0];
      assert !Broken(w.entries);
      hide Stuck, Home, Finds, Perform, Orders, Writes, Faultless, AllFaultless, PassSpares, Broken, IsCurrent,
           Cascade, AllOpen, Opens;
      RestFaultless(passes);
      SameFinding(w, current, p);
      FoundAgain(cfg, username, w, p);
      StuckStays(cfg, username, w, current, p.round);
      StuckNeverRests(cfg, username, TakePass(cfg, username, w, p).world, current, passes[1..]);
    }
  }

  // ----- With something to delete -----

  /** Once an entry is stranded, no synchronisation writes anything. */
  lemma StrandedWritesNothing(cfg: MaybeConfig, username: string, w: World, current: CallbackMap, r: Round)
    requires Stranded(w.db, w.snap, current) && Orders(w.snap, current, r.removedKeys, r.staleKeys)
    ensures Writes(cfg, username, w, current, r) == 0
  {
    hide Stale, DeleteLoop, LoopWrites;
    var removed := Pick(w.snap, r.removedKeys);
    var k :| k in RemovedKeys(w.snap, current) && w.snap[k].routeId != "" && w.snap[k].routeId !in w.db.routes;
    var i :| 0 <= i < |r.removedKeys| && r.removedKeys[i] == k;
    StrandedStops(cfg, username, w, removed, r.oracle.deletes, i);
  }

  /** The entry is removed, names a route, and shares it with no callback to publish. */
  predicate GoesForGood(username: string, snap: Snapshot, current: CallbackMap, k: string) {
    k in RemovedKeys(snap, current) && snap[k].routeId != "" && !IsWantedAnew(username, snap, current, snap[k].routeId)
  }

  /** None of the callbacks to publish has this route. */
  lemma NotPublished(cfg: MaybeConfig, username: string, snap: Snapshot, current: CallbackMap,
                     staleKeys: seq<string>, db: Db, id: string)
    requires Enumerates(staleKeys, StaleKeys(snap, current)) && !IsWantedAnew(username, snap, current, id)
    ensures forall i :: 0 <= i < |staleKeys| ==> !IsRowOf(cfg, username, db, Pick(current, staleKeys)[i], id)
  {
    hide Stale, WantedId, WantedRow, HasDomain;
    forall i | 0 <= i < |staleKeys| ensures !IsRowOf(cfg, username, db, Pick(current, staleKeys)[i], id) {
      assert staleKeys[i] in StaleKeys(snap, current);
    }
  }

  /** A synchronisation that wrote something and failed has deleted every route to delete, and strands each
      entry whose route no callback to publish shares, whatever it met. */
  lemma WritingAndFailingStrands(cfg: MaybeConfig, username: string, w: World, current: CallbackMap, r: Round,
                                 k: string)
    requires Home(cfg, username, w.db) && Orders(w.snap, current, r.removedKeys, r.staleKeys)
    requires Writes(cfg, username, w, current, r) != 0 && !Perform(cfg, username, w, current, r).ok
    requires GoesForGood(username, w.snap, current, k)
    ensures Stranded(Perform(cfg, username, w, current, r).world.db, w.snap, current)
  {
    HomeFacts(cfg, username, w.db);
    hide Home, Stale, DeleteLoop, UpsertLoop, LoopWrites, HasDomain, ValidUsername, IsRowOf, IsWantedAnew, IsCut;
    var deleted := Deletes(cfg, username, w, current, r.removedKeys, r.oracle);
    var id := w.snap[k].routeId;
    DeletedIsCut(cfg, username, w, current, r.removedKeys, r.oracle);
    assert IsRemoved(w.snap, current, id);
    CutRow(w.db, deleted.world.db, w.snap, current, id);
    UpsertLoopRow(cfg, username, deleted.world, Pick(current, r.staleKeys), r.oracle.upserts, id);
    var after := Perform(cfg, username, w, current, r).world.db;
    NotPublished(cfg, username, w.snap, current, r.staleKeys, after, id);
  }

  lemma PassStrands(cfg: MaybeConfig, username: string, w: World, p: Pass, k: string)
    requires Home(cfg, username, w.db) && Fits(w, p) && !Broken(w.entries)
    requires PassWrites(cfg, username, w, p) != 0 && !TakePass(cfg, username, w, p).ok
    requires GoesForGood(username, w.snap, p.current, k)
    ensures var after := TakePass(cfg, username, w, p).world; Stranded(after.db, after.snap, p.current)
  {
    hide Home, SyncInOrder, Writes, Broken, IsCurrent, GoesForGood, Stranded, Orders, Deletes, Upserts;
    var r := p.round;
    WritingAndFailingStrands(cfg, username, w, p.current, r, k);
    SyncEnds(cfg, username, w, p.current, r.removedKeys, r.staleKeys, r.oracle);
  }

  lemma StrandedPassWritesNothing(cfg: MaybeConfig, username: string, w: World, p: Pass)
    requires Fits(w, p) && Stranded(w.db, w.snap, p.current)
    ensures PassWrites(cfg, username, w, p) == 0
  {
    hide Writes, Broken, IsCurrent, Stranded, Orders;
    if !Broken(w.entries) { StrandedWritesNothing(cfg, username, w, p.current, p.round); }
  }

  /** If something goes for good, a synchronisation that fails, with whatever it met, and spares what
      discovery reads is followed by at most one more: it wrote nothing, or it stranded an entry. */
  lemma RestAfterDeletions(cfg: MaybeConfig, username: string, w: World, passes: seq<Pass>, k: string)
    requires Home(cfg, username, w.db) && Chain(cfg, username, w, passes) && passes != []
    requires Finds(w, passes[0].current) && PassSpares(cfg, username, w, passes[0])
    requires !TakePass(cfg, username, w, passes[0]).ok && GoesForGood(username, w.snap, passes[0].current, k)
    ensures Cascade(cfg, username, w, passes) <= 2
  {
    var p := passes[0];
    assert !Broken(w.entries);
    hide Home, PassSpares, Finds, Broken, GoesForGood, Stranded, Fits, TakePass, PassWrites, Cascade, AllSpare;
    if PassWrites(cfg, username, w, p) != 0 && |passes| > 1 {
      SecondFits(cfg, username, w, passes);
      PassStrands(cfg, username, w, p, k);
      FoundAgain(cfg, username, w, p);
      var after := TakePass(cfg, username, w, p).world;
      SameFinding(after, p.current, passes[1]);
      StrandedPassWritesNothing(cfg, username, after, passes[1]);
    }
    TwoAtMost(cfg, username, w, passes);
  }

  // ----- With nothing to delete -----

  /** Without deletions the tables end as the upsert loop leaves them. */
  lemma NothingToDelete(cfg: MaybeConfig, username: string, w: World, current: CallbackMap, r: Round)
    requires Orders(w.snap, current, r.removedKeys, r.staleKeys) && r.removedKeys == [] && r.oracle.read
    ensures Perform(cfg, username, w, current, r).world.db
      == UpsertLoop(cfg, username, w, Pick(current, r.staleKeys), r.oracle.upserts).world.db
    ensures Writes(cfg, username, w, current, r)
      == LoopWrites(cfg, username, w, Pick(current, r.staleKeys), r.oracle.upserts)
  {
    assert Pick(w.snap, r.removedKeys) == [];
    assert DeleteLoop(cfg, username, w, [], r.oracle.deletes) == Stage(w, true);
    hide UpsertLoop, LoopWrites, Stale;
  }

  /** With nothing to delete, a callback that was published first can be published first again. */
  lemma OpensAgain(cfg: MaybeConfig, username: string, w: World, current: CallbackMap, r: Round, next: Round)
    requires Home(cfg, username, w.db) && Faultless(r.oracle) && RemovedKeys(w.snap, current) == {}
    requires Orders(w.snap, current, r.removedKeys, r.staleKeys) && Opens(username, w.db, w.snap, current, r)
    requires next.staleKeys != [] && next.staleKeys[0] == r.staleKeys[0]
    ensures Opens(username, Perform(cfg, username, w, current, r).world.db, w.snap, current, next)
  {
    hide Home, SyncInOrder, Stale, Publishable, WantedId, AllDeleted, AllPublished, UpsertLoop, LoopWrites,
         Api.HoldsHint, Slug;
    ListingOfNothing(r.removedKeys, RemovedKeys(w.snap, current));
    NothingToDelete(cfg, username, w, current, r);
    SyncKeepsHome(cfg, username, w, current, r.removedKeys, r.staleKeys, r.oracle);
    var added := Pick(current, r.staleKeys);
    UnblockedIsUnheld(username, w.db, w.snap, current, r.staleKeys[0]);
    FirstIsWritten(cfg, username, w, added, r.oracle.upserts);
    HolderIsUnique(cfg, username, Perform(cfg, username, w, current, r).world.db, added[0]);
  }

  lemma UnblockedIsUnheld(username: string, db: Db, snap: Snapshot, current: CallbackMap, k: string)
    requires RemovedKeys(snap, current) == {} && k in StaleKeys(snap, current)
    requires forall x :: !Blocked(username, db, snap, current, k, x)
    ensures !Held(username, db, current[k])
  {
    hide Stale, WantedId, Api.HoldsHint, Slug;
    var id, hint := WantedId(username, current[k]), Slug(current[k].hostnameHint);
    forall x | x in db.routes && x != id ensures !Api.HoldsHint(db, x, username, hint) {
      assert !IsRemoved(snap, current, x) && !Blocked(username, db, snap, current, k, x);
    }
  }

  predicate AllVisit(passes: seq<Pass>, k: string) {
    forall i :: 0 <= i < |passes| ==> passes[i].round.staleKeys != [] && passes[i].round.staleKeys[0] == k
  }

  lemma RestVisits(passes: seq<Pass>, k: string)
    requires passes != [] && AllVisit(passes, k)
    ensures passes[0].round.staleKeys != [] && passes[0].round.staleKeys[0] == k && AllVisit(passes[1..], k)
  {}

  /** With nothing to delete, a callback that can be published and is always visited first keeps a stuck
      watcher going for ever. */
  lemma {:induction false} SameFirstNeverRests(cfg: MaybeConfig, username: string, w: World, current: CallbackMap,
                                               passes: seq<Pass>, k: string)
    requires Stuck(cfg, username, w, current) && Finds(w, current) && RemovedKeys(w.snap, current) == {}
    requires Chain(cfg, username, w, passes) && AllFaultless(passes) && AllSpare(cfg, username, w, passes)
    requires AllVisit(passes, k) && passes != [] && Opens(username, w.db, w.snap, current, passes[0].round)
    ensures AllOpen(cfg, username, w, passes)
    decreases |passes|
  {
    if |passes| > 1 {
      var p, rest := passes[0], passes[1..];
      assert !Broken(w.entries) && Home(cfg, username, w.db);
      hide Stuck, Home, Finds, Perform, Orders, Faultless, AllFaultless, Opens, PassSpares, Broken, IsCurrent, AllVisit;
      RestFaultless(passes);
      RestVisits(passes, k);
      RestVisits(rest, k);
      SameFinding(w, current, p);
      FoundAgain(cfg, username, w, p);
      StuckStays(cfg, username, w, current, p.round);
      OpensAgain(cfg, username, w, current, p.round, rest[0].round);
      SameFirstNeverRests(cfg, username, TakePass(cfg, username, w, p).world, current, rest, k);
    }
  }

  function Copies(p: Pass, n: nat): seq<Pass> { seq(n, i => p) }

  lemma CopiesShorten(p: Pass, n: nat)
    requires n > 0
    ensures Copies(p, n) != [] && Copies(p, n)[0] == p && Copies(p, n)[1..] == Copies(p, n - 1)
  {}

  /** Stuck with nothing to delete and harmless keys, on a pass that opens. */
  ghost predicate Spins(cfg: MaybeConfig, username: string, w: World, p: Pass) {
    && Stuck(cfg, username, w, p.current) && Finds(w, p.current) && HarmlessKeys(w.entries)
    && RemovedKeys(w.snap, p.current) == {} && Faultless(p.round.oracle)
    && Orders(w.snap, p.current, p.round.removedKeys, p.round.staleKeys)
    && Opens(username, w.db, w.snap, p.current, p.round)
  }

  lemma SpinsOn(cfg: MaybeConfig, username: string, w: World, p: Pass)
    requires Spins(cfg, username, w, p)
    ensures Fits(w, p) && !TakePass(cfg, username, w, p).ok && PassWrites(cfg, username, w, p) != 0
    ensures Spins(cfg, username, TakePass(cfg, username, w, p).world, p)
  {
    assert !Broken(w.entries) && Home(cfg, username, w.db) && IsCurrent(p.current, w.entries);
    assert p.round.staleKeys != [];
    hide Stuck, Home, Finds, HarmlessKeys, SyncInOrder, Orders, Faultless, Opens, Broken, IsCurrent, RemovedKeys,
         SyncSpares, Writes;
    SyncKeepsWanted(cfg, username, w, p.current, p.round);
    FoundAgain(cfg, username, w, p);
    StuckStays(cfg, username, w, p.current, p.round);
    OpensAgain(cfg, username, w, p.current, p.round, p.round);
  }

  /** Taken again and again, such a pass keeps failing and writing for ever. */
  lemma {:induction false} SpinsForEver(cfg: MaybeConfig, username: string, w: World, p: Pass, n: nat)
    requires Spins(cfg, username, w, p)
    ensures Chain(cfg, username, w, Copies(p, n)) && NoneSucceeds(cfg, username, w, Copies(p, n))
    ensures Cascade(cfg, username, w, Copies(p, n)) == n
    decreases n
  {
    hide Spins, Fits, TakePass, PassWrites, Copies;
    if n == 0 {
      NoCopies(p);
    } else {
      CopiesShorten(p, n);
      SpinsOn(cfg, username, w, p);
      SpinsForEver(cfg, username, TakePass(cfg, username, w, p).world, p, n - 1);
    }
  }

  lemma NoCopies(p: Pass)
    ensures Copies(p, 0) == []
  {}

  // ----- In the event loop -----

  /** What the event loop sees when nobody but the watcher writes to the configuration: after each
      synchronisation that wrote, the event, the quiet interval and the tick that starts the next one. */
  function OwnEvents(path: string, cfg: MaybeConfig, username: string, w: World,
                     passes: seq<Pass>): seq<Debounce.Input>
    requires Chain(cfg, username, w, passes)
    decreases |passes|, 0
  {
    if passes == [] || PassWrites(cfg, username, w, passes[0]) == 0 then []
    else NextEvents(path, cfg, username, TakePass(cfg, username, w, passes[0]).world, passes[1..])
  }

  function NextEvents(path: string, cfg: MaybeConfig, username: string, w: World,
                      passes: seq<Pass>): seq<Debounce.Input>
    requires Chain(cfg, username, w, passes)
    decreases |passes|, 1
  {
    if passes == [] then []
    else Starting(path, TakePass(cfg, username, w, passes[0]).ok) + OwnEvents(path, cfg, username, w, passes)
  }

  /** A write to the configuration, and the synchronisation it starts. */
  function Starting(path: string, ok: bool): seq<Debounce.Input> {
    [Debounce.Event(Some(path)), Debounce.Elapsed, Debounce.TickReceived(ok)]
  }

  /** The loop is waiting, and no synchronisation is due. */
  predicate Idle(s: Debounce.State) { s.exit == Debounce.Stays && !s.pending && s.timer == Debounce.Stopped }

  lemma OneMore(path: string, s: Debounce.State, ok: bool)
    requires Idle(s)
    ensures var t := Debounce.Run(path, s, Starting(path, ok));
      && Idle(t)
      && Debounce.Count(t.log, Debounce.SyncStart) == Debounce.Count(s.log, Debounce.SyncStart) + 1
  {
    hide Debounce.Base, Debounce.Count;
    var inputs := Starting(path, ok);
    var a := Debounce.Step(path, s, inputs[0]);
    var b := Debounce.Step(path, a, inputs[1]);
    var c := Debounce.Step(path, b, inputs[2]);
    assert inputs[1..] == [inputs[1], inputs[2]] && inputs[1..][1..] == [inputs[2]] && [inputs[2]][1..] == [];
    assert Debounce.Run(path, s, inputs) == Debounce.Run(path, a, inputs[1..]) == Debounce.Run(path, b, [inputs[2]])
      == Debounce.Run(path, c, []) == c;
    Debounce.CountSnoc(s.log, Debounce.ConfigEvent, Debounce.SyncStart);
    Debounce.CountSnoc(a.log, Debounce.Interval, Debounce.SyncStart);
    Debounce.CountSnoc(b.log, Debounce.SyncStart, Debounce.SyncStart);
    Debounce.CountSnoc(b.log + [Debounce.SyncStart], Debounce.Reported, Debounce.SyncStart);
    assert c.log == if ok then b.log + [Debounce.SyncStart] else b.log + [Debounce.SyncStart] + [Debounce.Reported];
  }

  /** Driven by nothing but its own writes, the event loop starts exactly the synchronisations of the
      cascade, the first of which it has just made. */
  lemma {:induction false} LoopFollowsCascade(path: string, s: Debounce.State, cfg: MaybeConfig, username: string,
                                              w: World, passes: seq<Pass>)
    requires Idle(s) && Chain(cfg, username, w, passes) && passes != []
    ensures var t := Debounce.Run(path, s, OwnEvents(path, cfg, username, w, passes));
      && Idle(t)
      && Debounce.Count(t.log, Debounce.SyncStart)
        == Debounce.Count(s.log, Debounce.SyncStart) + Cascade(cfg, username, w, passes) - 1
    decreases |passes|
  {
    hide Debounce.Step, Debounce.Count, Fits, PassWrites, TakePass, Idle, Starting;
    if PassWrites(cfg, username, w, passes[0]) != 0 && |passes| > 1 {
      var next, rest := TakePass(cfg, username, w, passes[0]).world, passes[1..];
      var ok := TakePass(cfg, username, next, rest[0]).ok;
      var first := Starting(path, ok);
      OneMore(path, s, ok);
      LoopFollowsCascade(path, Debounce.Run(path, s, first), cfg, username, next, rest);
      Debounce.RunSplits(path, s, first, OwnEvents(path, cfg, username, next, rest));
    }
  }

  /** Without anybody else writing: after a synchronisation that wrote nothing the event loop starts no
      further one; without faults it starts as many as there are passes exactly if each but the last
      opens. If no write overwrites what discovery reads, it starts at most one after a success, and after
      a failure while something goes for good; and of a stuck watcher none succeeds. */
  lemma QuietExactly(path: string, s: Debounce.State, cfg: MaybeConfig, username: string, w: World,
                     passes: seq<Pass>, k: string)
    requires Idle(s) && Chain(cfg, username, w, passes) && passes != []
    ensures var t := Debounce.Run(path, s, OwnEvents(path, cfg, username, w, passes));
      var more := Debounce.Count(t.log, Debounce.SyncStart) - Debounce.Count(s.log, Debounce.SyncStart);
      var ok, current := TakePass(cfg, username, w, passes[0]).ok, passes[0].current;
      && (PassWrites(cfg, username, w, passes[0]) == 0 ==> more == 0)
      && (Home(cfg, username, w.db) && AllFaultless(passes) ==>
            (more == |passes| - 1 <==> AllOpen(cfg, username, w, passes)))
      && (Finds(w, current) && AllSpare(cfg, username, w, passes) ==>
            && (Tracked(cfg, username, w.snap) && ok ==> more <= 1)
            && (Home(cfg, username, w.db) && !ok && GoesForGood(username, w.snap, current, k) ==> more <= 1)
            && (Stuck(cfg, username, w, current) && AllFaultless(passes) ==> NoneSucceeds(cfg, username, w, passes)))
  {
    LoopFollowsCascade(path, s, cfg, username, w, passes);
    var current := passes[0].current;
    assert Finds(w, current) ==> NulFree(w.entries);
    hide Home, Tracked, Stuck, Fits, PassWrites, TakePass, Debounce.Run, Debounce.Count, OwnEvents, Finds, PassSpares,
         GoesForGood, AllFaultless, AllOpen, NoneSucceeds, Broken, NulFree;
    if Home(cfg, username, w.db) && AllFaultless(passes) { GoesOnExactly(cfg, username, w, passes); }
    if Finds(w, current) && AllSpare(cfg, username, w, passes) {
      var ok := TakePass(cfg, username, w, passes[0]).ok;
      if Tracked(cfg, username, w.snap) && ok { RestAfterSuccess(cfg, username, w, passes); }
      if Home(cfg, username, w.db) && !ok && GoesForGood(username, w.snap, current, k) {
        RestAfterDeletions(cfg, username, w, passes, k);
      }
      if Stuck(cfg, username, w, current) && AllFaultless(passes) {
        StuckNeverRests(cfg, username, w, current, passes);
      }
    }
  }
}
