/** What a synchronisation leaves in the configuration and in the saved snapshot. */
module Configuration {
  import opened Text
  import opened State
  import opened Identity
  import opened Callbacks
  import opened Watcher
  import opened Reconcile
  import opened Feedback
  import Readiness

  // ----- One write -----

  /** The path names this setting of this plugin. */
  predicate Names(key: string, p: string, field: string) {
    key == "plugins.entries." + p + ".config." + field && Without(p, '.') && Without(field, '.')
  }

  /** The value of a setting, if the plugin is there and has it. */
  function Setting(entries: Entries, p: string, field: string): Option<Value> {
    if p in entries && field in entries[p].config then Some(entries[p].config[field]) else None
  }

  /** The same plugins, asking for the same. */
  predicate SamePlugins(a: Entries, b: Entries) {
    a.Keys == b.Keys && forall p :: p in a ==> a[p].callback == b[p].callback
  }

  lemma {:induction false} PiecesAreClean(s: string, sep: char)
    ensures forall i :: 0 <= i < |Split(s, sep)| ==> Without(Split(s, sep)[i], sep)
  {
    if s != [] { PiecesAreClean(s[1..], sep); }
  }

  lemma JoinFive(a: string, b: string, c: string, d: string, e: string)
    ensures Join([a, b, c, d, e], ".") == a + "." + (b + "." + (c + "." + (d + "." + e)))
  {
    assert [a, b, c, d, e][1..] == [b, c, d, e] && [b, c, d, e][1..] == [c, d, e];
    assert [c, d, e][1..] == [d, e] && [d, e][1..] == [e];
    assert Join([d, e], ".") == d + "." + e;
    assert Join([c, d, e], ".") == c + "." + (d + "." + e);
    assert Join([b, c, d, e], ".") == b + "." + (c + "." + (d + "." + e));
  }

  lemma NamedPieces(key: string, p: string, field: string)
    requires Names(key, p, field)
    ensures Split(key, '.') == ["plugins", "entries", p, "config", field]
  {
    DefaultKeyPath(p, field);
    SplitClean(p, '.');
    hide Split;
  }

  lemma FivePieces(key: string, p: string, field: string)
    requires Split(key, '.') == ["plugins", "entries", p, "config", field]
    ensures Names(key, p, field)
  {
    JoinSplit(key, '.');
    PiecesAreClean(key, '.');
    JoinFive("plugins", "entries", p, "config", field);
    hide Split, Join, Without;
    assert Without(Split(key, '.')[2], '.') && Without(Split(key, '.')[4], '.');
    assert key == "plugins.entries." + p + ".config." + field;
  }

  /** A path names a setting exactly if it has five pieces of this form. */
  lemma NamesIsExact(key: string, p: string, field: string)
    ensures Names(key, p, field) <==> Split(key, '.') == ["plugins", "entries", p, "config", field]
  {
    if Names(key, p, field) { NamedPieces(key, p, field); }
    hide Names, Split;
    if Split(key, '.') == ["plugins", "entries", p, "config", field] { FivePieces(key, p, field); }
  }

  /** A write sets the setting its path names, of a plugin that is there, and changes nothing else. */
  lemma WriteSets(entries: Entries, key: string, v: Value, p: string, field: string)
    ensures var after := ConfigSet(entries, key, v);
      && SamePlugins(after, entries)
      && Setting(after, p, field)
           == if p in entries && Names(key, p, field) then Some(v) else Setting(entries, p, field)
  {
    NamesIsExact(key, p, field);
    hide Split, Names;
  }

  // ----- The writes of a synchronisation -----

  datatype Write = Write(key: string, value: Value)

  /** The port as text or as a number. */
  function PortText(port: int, asNumber: bool): Value { if asNumber then Num(port as real) else Str(Itoa(port)) }

  /** For each callback in turn: its URL, then its port. */
  function Plan(cfg: MaybeConfig, username: string, added: seq<CallbackRoute>, faults: seq<UpsertFault>): seq<Write>
    requires HasDomain(cfg)
    decreases |added|
  {
    if added == [] then []
    else
      var c := added[0];
      [Write(c.urlKey, Str("https://" + HostOf(cfg, username, c.hostnameHint))),
       Write(c.portKey, PortText(c.localPort, Head(faults, SMOOTH).asNumber))]
      + Plan(cfg, username, added[1..], Tail(faults))
  }

  /** What a setting of a plugin that is there holds after some writes: the last one that names it wins. */
  function Latest(writes: seq<Write>, p: string, field: string, before: Option<Value>): Option<Value> {
    if writes == [] then before
    else Latest(writes[1..], p, field, if Names(writes[0].key, p, field) then Some(writes[0].value) else before)
  }

  /** The configuration after some writes. */
  predicate Wrote(before: Entries, after: Entries, writes: seq<Write>, p: string, field: string) {
    && SamePlugins(after, before)
    && Setting(after, p, field)
         == if p in before then Latest(writes, p, field, Setting(before, p, field)) else None
  }

  lemma WroteNothing(entries: Entries, p: string, field: string)
    ensures Wrote(entries, entries, [], p, field)
  {}

  /** One write, and then others. */
  lemma WroteFirst(before: Entries, key: string, v: Value, after: Entries, rest: seq<Write>, p: string, field: string)
    requires Wrote(ConfigSet(before, key, v), after, rest, p, field)
    ensures Wrote(before, after, [Write(key, v)] + rest, p, field)
  {
    WriteSets(before, key, v, p, field);
    hide ConfigSet, Names;
    assert ([Write(key, v)] + rest)[1..] == rest;
  }

  lemma PlanLength(cfg: MaybeConfig, username: string, added: seq<CallbackRoute>, faults: seq<UpsertFault>)
    requires HasDomain(cfg)
    ensures |Plan(cfg, username, added, faults)| == 2 * |added|
    decreases |added|
  {
    hide HasDomain, HostOf, PortText;
    if added != [] { PlanLength(cfg, username, added[1..], Tail(faults)); }
  }

  /** One write-back, as far as it gets, and then others. */
  lemma WroteBack(before: Entries, c: CallbackRoute, url: string, f: UpsertFault, after: Entries, rest: seq<Write>,
                  p: string, field: string)
    requires Wrote(SetCallback(before, c, url, c.localPort, f.writer, f.asNumber), after, rest, p, field)
    ensures var two := [Write(c.urlKey, Str(url)), Write(c.portKey, PortText(c.localPort, f.asNumber))];
      Wrote(before, after, two[..FieldsWritten(f.writer)] + rest, p, field)
  {
    hide Wrote, ConfigSet, Itoa;
    var one, other := Write(c.urlKey, Str(url)), Write(c.portKey, PortText(c.localPort, f.asNumber));
    var two := [one, other];
    match f.writer
    case UrlFails => assert two[..0] + rest == rest;
    case PortFails =>
      WroteFirst(before, one.key, one.value, after, rest, p, field);
      assert two[..1] + rest == [one] + rest;
    case Written =>
      var first := ConfigSet(before, one.key, one.value);
      WroteFirst(first, other.key, other.value, after, rest, p, field);
      WroteFirst(before, one.key, one.value, after, [other] + rest, p, field);
      assert two[..2] + rest == [one] + ([other] + rest);
  }

  lemma PlanCut(cfg: MaybeConfig, username: string, added: seq<CallbackRoute>, faults: seq<UpsertFault>, n: nat)
    requires HasDomain(cfg) && added != [] && n <= 2 * |added|
    ensures |Plan(cfg, username, added, faults)| == 2 * |added|
    ensures |Plan(cfg, username, added[1..], Tail(faults))| == 2 * |added| - 2
    ensures var c, plan := added[0], Plan(cfg, username, added, faults);
      var two := [Write(c.urlKey, Str("https://" + HostOf(cfg, username, c.hostnameHint))),
                  Write(c.portKey, PortText(c.localPort, Head(faults, SMOOTH).asNumber))];
      plan[..n] == if n <= 2 then two[..n] else two + Plan(cfg, username, added[1..], Tail(faults))[..n - 2]
  {
    PlanLength(cfg, username, added, faults);
    PlanLength(cfg, username, added[1..], Tail(faults));
    hide HasDomain, HostOf, PortText;
  }

  lemma FewWrites(cfg: MaybeConfig, username: string, w: World, added: seq<CallbackRoute>, faults: seq<UpsertFault>)
    ensures LoopWrites(cfg, username, w, added, faults) <= 2 * |added|
    ensures UpsertLoop(cfg, username, w, added, faults).ok ==>
      LoopWrites(cfg, username, w, added, faults) == 2 * |added|
    decreases |added|
  {
    hide RemoteUpsert, SetCallback, KeyOf, PublishedEntry, Url;
    if added != [] {
      var c, f := added[0], Head(faults, SMOOTH);
      var reply := RemoteUpsert(cfg, username, w.db, c, f.remote);
      if reply.route.Some? && f.writer == Written {
        FewWrites(cfg, username, Next(w, c, f, reply.db, reply.route.value), added[1..], Tail(faults));
      }
    }
  }

  /** The upsert loop makes the first of its planned writes, as many as are counted, and all of them if it
      gets through. */
  lemma {:induction false} LoopConfigures(cfg: MaybeConfig, username: string, w: World, added: seq<CallbackRoute>,
                                          faults: seq<UpsertFault>, p: string, field: string)
    requires HasDomain(cfg)
    ensures var n, plan := LoopWrites(cfg, username, w, added, faults), Plan(cfg, username, added, faults);
      n <= |plan| && Wrote(w.entries, UpsertLoop(cfg, username, w, added, faults).world.entries, plan[..n], p, field)
    decreases |added|
  {
    hide RemoteUpsert, KeyOf, PublishedEntry, SetCallback, WantedRow, HostOf, HasDomain, WantedId, Wrote, PortText;
    PlanLength(cfg, username, added, faults);
    FewWrites(cfg, username, w, added, faults);
    var n, plan := LoopWrites(cfg, username, w, added, faults), Plan(cfg, username, added, faults);
    var after := UpsertLoop(cfg, username, w, added, faults).world.entries;
    if added == [] {
      WroteNothing(w.entries, p, field);
    } else {
      var c, f := added[0], Head(faults, SMOOTH);
      var reply := RemoteUpsert(cfg, username, w.db, c, f.remote);
      PlanCut(cfg, username, added, faults, n);
      if reply.route.None? {
        WroteNothing(w.entries, p, field);
        assert plan[..n] == [];
      } else {
        UpsertTouches(cfg, username, w.db, c, f.remote, "");
        WantedRowNames(cfg, username, c);
        var url := "https://" + HostOf(cfg, username, c.hostnameHint);
        var entries := SetCallback(w.entries, c, url, c.localPort, f.writer, f.asNumber);
        var rest := [];
        if f.writer == Written {
          var next := Next(w, c, f, reply.db, reply.route.value);
          LoopConfigures(cfg, username, next, added[1..], Tail(faults), p, field);
          rest := Plan(cfg, username, added[1..], Tail(faults))[..n - 2];
        } else {
          WroteNothing(entries, p, field);
        }
        assert after == UpsertLoop(cfg, username, w, added, faults).world.entries;
        WroteBack(w.entries, c, url, f, after, rest, p, field);
        var two := [Write(c.urlKey, Str(url)), Write(c.portKey, PortText(c.localPort, f.asNumber))];
        assert plan[..n] == two[..FieldsWritten(f.writer)] + rest;
      }
    }
  }

  lemma WantedRowNames(cfg: MaybeConfig, username: string, c: CallbackRoute)
    requires HasDomain(cfg)
    ensures WantedRow(cfg, username, c).hostname == HostOf(cfg, username, c.hostnameHint)
    ensures WantedRow(cfg, username, c).localPort == c.localPort
  {}

  /** At every end of a synchronisation each setting holds the value of the last write that names it, of
      the planned writes that were made; a success makes them all. */
  lemma SyncConfigures(cfg: MaybeConfig, username: string, w: World, current: CallbackMap, r: Round,
                       p: string, field: string)
    requires HasDomain(cfg) && Orders(w.snap, current, r.removedKeys, r.staleKeys)
    ensures var s, n := Perform(cfg, username, w, current, r), Writes(cfg, username, w, current, r);
      var plan := Plan(cfg, username, Pick(current, r.staleKeys), r.oracle.upserts);
      && n <= |plan| == 2 * |r.staleKeys| && (s.ok ==> n == |plan|)
      && Wrote(w.entries, s.world.entries, plan[..n], p, field)
  {
    hide HasDomain, DeleteLoop, UpsertLoop, LoopWrites, Plan, Wrote, Stale;
    var added := Pick(current, r.staleKeys);
    var deleted := Deletes(cfg, username, w, current, r.removedKeys, r.oracle);
    DeleteLoopRow(cfg, username, w, Pick(w.snap, r.removedKeys), r.oracle.deletes, "");
    PlanLength(cfg, username, added, r.oracle.upserts);
    WroteNothing(w.entries, p, field);
    LoopConfigures(cfg, username, deleted.world, added, r.oracle.upserts, p, field);
    FewWrites(cfg, username, deleted.world, added, r.oracle.upserts);
    assert Plan(cfg, username, added, r.oracle.upserts)[..0] == [];
  }

  lemma {:induction false} LatestIs(writes: seq<Write>, i: nat, p: string, field: string, before: Option<Value>)
    requires i < |writes| && Names(writes[i].key, p, field)
    requires forall j :: i < j < |writes| ==> !Names(writes[j].key, p, field)
    ensures Latest(writes, p, field, before) == Some(writes[i].value)
    decreases |writes|
  {
    hide Names;
    var rest, now := writes[1..], if Names(writes[0].key, p, field) then Some(writes[0].value) else before;
    assert forall j :: 0 <= j < |rest| ==> rest[j] == writes[j + 1];
    if i > 0 { LatestIs(rest, i - 1, p, field, now); } else { LatestStays(rest, p, field, now); }
  }

  lemma {:induction false} LatestStays(writes: seq<Write>, p: string, field: string, before: Option<Value>)
    requires forall j :: 0 <= j < |writes| ==> !Names(writes[j].key, p, field)
    ensures Latest(writes, p, field, before) == before
    decreases |writes|
  {
    hide Names;
    if writes != [] {
      assert forall j :: 0 <= j < |writes[1..]| ==> writes[1..][j] == writes[j + 1];
      LatestStays(writes[1..], p, field, before);
    }
  }

  lemma {:induction false} PlanAt(cfg: MaybeConfig, username: string, added: seq<CallbackRoute>,
                                  faults: seq<UpsertFault>, i: nat)
    requires HasDomain(cfg) && i < |added|
    ensures var plan := Plan(cfg, username, added, faults);
      && |plan| == 2 * |added|
      && plan[2 * i] == Write(added[i].urlKey, Str("https://" + HostOf(cfg, username, added[i].hostnameHint)))
      && plan[2 * i + 1].key == added[i].portKey
      && (plan[2 * i + 1].value == PortText(added[i].localPort, true)
          || plan[2 * i + 1].value == PortText(added[i].localPort, false))
    decreases |added|
  {
    hide HasDomain, HostOf, PortText;
    PlanLength(cfg, username, added, faults);
    if i > 0 {
      PlanLength(cfg, username, added[1..], Tail(faults));
      PlanAt(cfg, username, added[1..], Tail(faults), i - 1);
      assert added[1..][i - 1] == added[i];
    }
  }

  /** One of the two keys of the callback names the setting. */
  predicate NamedBy(c: CallbackRoute, p: string, field: string) {
    Names(c.urlKey, p, field) || Names(c.portKey, p, field)
  }

  /** A callback that is visited later names the setting. */
  predicate NamedLater(current: CallbackMap, keys: seq<string>, i: nat, p: string, field: string) {
    exists j :: i < j < |keys| && keys[j] in current && NamedBy(current[keys[j]], p, field)
  }

  lemma PlanNames(cfg: MaybeConfig, username: string, added: seq<CallbackRoute>, faults: seq<UpsertFault>, from: nat,
                  p: string, field: string)
    requires HasDomain(cfg)
    requires forall j :: from <= j < |added| ==> !NamedBy(added[j], p, field)
    ensures var plan := Plan(cfg, username, added, faults);
      |plan| == 2 * |added| && forall j :: 2 * from <= j < |plan| ==> !Names(plan[j].key, p, field)
  {
    hide HasDomain, HostOf, PortText, Names, Plan;
    var plan := Plan(cfg, username, added, faults);
    PlanLength(cfg, username, added, faults);
    forall j | 2 * from <= j < |plan| ensures !Names(plan[j].key, p, field) {
      PlanAt(cfg, username, added, faults, j / 2);
      assert !NamedBy(added[j / 2], p, field);
      assert j == 2 * (j / 2) || j == 2 * (j / 2) + 1;
    }
  }

  /** At every end a setting that no key of a stale callback names is as it was. */
  lemma OthersStay(cfg: MaybeConfig, username: string, w: World, current: CallbackMap, r: Round,
                   p: string, field: string)
    requires HasDomain(cfg) && Orders(w.snap, current, r.removedKeys, r.staleKeys)
    requires forall k :: k in StaleKeys(w.snap, current) ==> !NamedBy(current[k], p, field)
    ensures var after := Perform(cfg, username, w, current, r).world.entries;
      SamePlugins(after, w.entries) && Setting(after, p, field) == Setting(w.entries, p, field)
  {
    hide HasDomain, Perform, Writes, Plan, NamedBy, Names, Stale;
    var added := Pick(current, r.staleKeys);
    SyncConfigures(cfg, username, w, current, r, p, field);
    PlanNames(cfg, username, added, r.oracle.upserts, 0, p, field);
    var n := Writes(cfg, username, w, current, r);
    LatestStays(Plan(cfg, username, added, r.oracle.upserts)[..n], p, field, Setting(w.entries, p, field));
  }

  lemma LoopHasDomain(cfg: MaybeConfig, username: string, w: World, added: seq<CallbackRoute>, faults: seq<UpsertFault>)
    requires added != [] && UpsertLoop(cfg, username, w, added, faults).ok
    ensures HasDomain(cfg)
  {
    hide Slug, PutRoute, SetCallback, KeyOf, PublishedEntry;
  }

  lemma SuccessHasDomain(cfg: MaybeConfig, username: string, w: World, current: CallbackMap, r: Round)
    requires Orders(w.snap, current, r.removedKeys, r.staleKeys) && r.staleKeys != []
    requires Perform(cfg, username, w, current, r).ok
    ensures HasDomain(cfg)
  {
    hide HasDomain, DeleteLoop, UpsertLoop, Stale;
    var deleted := Deletes(cfg, username, w, current, r.removedKeys, r.oracle);
    LoopHasDomain(cfg, username, deleted.world, Pick(current, r.staleKeys), r.oracle.upserts);
  }

  /** The setting is there and is read as this number. */
  predicate ReadsAs(entries: Entries, p: string, field: string, n: int) {
    Setting(entries, p, field).Some? && IntFromConfig(entries[p].config, field) == n
  }

  lemma PortTextReads(entries: Entries, p: string, field: string, port: int, asNumber: bool)
    requires Setting(entries, p, field) == Some(PortText(port, asNumber)) && 1 <= port <= 65535
    ensures ReadsAs(entries, p, field, port)
  {
    AtoiItoa(port);
    assert (port as real).Floor == port;
  }

  /** After a success every stale callback has its URL and its port in the settings its keys name, unless
      a write that comes later names the same setting. */
  lemma SuccessConfigures(cfg: MaybeConfig, username: string, w: World, current: CallbackMap, r: Round, i: nat,
                          p: string, field: string)
    requires Orders(w.snap, current, r.removedKeys, r.staleKeys) && Perform(cfg, username, w, current, r).ok
    requires i < |r.staleKeys| && p in w.entries && !NamedLater(current, r.staleKeys, i, p, field)
    ensures HasDomain(cfg)
    ensures var c, after := current[r.staleKeys[i]], Perform(cfg, username, w, current, r).world.entries;
      && (Names(c.urlKey, p, field) && !Names(c.portKey, p, field) ==>
            Setting(after, p, field) == Some(Str("https://" + HostOf(cfg, username, c.hostnameHint))))
      && (Names(c.portKey, p, field) && 1 <= c.localPort <= 65535 ==> ReadsAs(after, p, field, c.localPort))
  {
    hide HasDomain, Perform, Writes, Plan, Names, PortText, HostOf, Stale, ReadsAs;
    SuccessHasDomain(cfg, username, w, current, r);
    var added, faults := Pick(current, r.staleKeys), r.oracle.upserts;
    var c, plan := current[r.staleKeys[i]], Plan(cfg, username, added, faults);
    SyncConfigures(cfg, username, w, current, r, p, field);
    assert plan[..|plan|] == plan;
    PlanAt(cfg, username, added, faults, i);
    forall j | i + 1 <= j < |added| ensures !NamedBy(added[j], p, field) { assert added[j] == current[r.staleKeys[j]]; }
    PlanNames(cfg, username, added, faults, i + 1, p, field);
    var after := Perform(cfg, username, w, current, r).world.entries;
    if Names(c.portKey, p, field) {
      LatestIs(plan, 2 * i + 1, p, field, Setting(w.entries, p, field));
      if 1 <= c.localPort <= 65535 {
        PortTextReads(after, p, field, c.localPort, plan[2 * i + 1].value == PortText(c.localPort, true));
      }
    } else if Names(c.urlKey, p, field) {
      LatestIs(plan, 2 * i, p, field, Setting(w.entries, p, field));
    }
  }

  // ----- The saved snapshot -----

  /** An entry leaves the snapshot exactly if one that names a route and has its key is deleted. */
  lemma {:induction false} DeleteLoopKeepsEntry(cfg: MaybeConfig, username: string, w: World,
                                                removed: seq<SnapshotEntry>, faults: seq<Fault>, k: string)
    requires DeleteLoop(cfg, username, w, removed, faults).ok
    ensures var after := DeleteLoop(cfg, username, w, removed, faults).world.snap;
      && (k in after <==> k in w.snap && forall i :: 0 <= i < |removed| && removed[i].routeId != "" ==>
            EntryKey(removed[i]) != k)
      && (k in after ==> after[k] == w.snap[k])
    decreases |removed|
  {
    hide RemoteDelete, EntryKey;
    if removed != [] {
      var e, rest := removed[0], removed[1..];
      assert forall i :: 0 <= i < |removed| ==> removed[i] == if i == 0 then e else rest[i - 1];
      if e.routeId == "" {
        DeleteLoopKeepsEntry(cfg, username, w, rest, faults, k);
      } else {
        var d := RemoteDelete(cfg, username, w.db, e.routeId, Head(faults, NoFault));
        DeleteLoopKeepsEntry(cfg, username, w.(db := d.db, snap := w.snap - {EntryKey(e)}), rest, Tail(faults), k);
      }
      assert forall i :: 0 <= i < |rest| ==> rest[i] == removed[i + 1];
    }
  }

  /** The entry of a published callback. */
  predicate Remembers(cfg: MaybeConfig, username: string, e: SnapshotEntry, c: CallbackRoute)
    requires HasDomain(cfg)
  {
    && e.pluginId == c.pluginId && e.hostnameHint == c.hostnameHint && e.localPort == c.localPort
    && e.routeId == "plugin:" + username + ":" + Slug(c.pluginId) + ":" + Slug(c.hostnameHint)
    && e.url == "https://" + HostOf(cfg, username, c.hostnameHint)
    && e.urlKey == c.urlKey && e.portKey == c.portKey && e.synced
  }

  lemma PublishedIsRemembered(cfg: MaybeConfig, username: string, c: CallbackRoute)
    requires HasDomain(cfg)
    ensures Remembers(cfg, username, PublishedEntry(c, WantedRow(cfg, username, c)), c)
  {
    hide Slug, HasDomain;
    var p, h := Slug(c.pluginId), Slug(c.hostnameHint);
    assert PluginRouteId(username, p, h) == "plugin:" + username + ":" + p + ":" + h;
  }

  /** A success saves an entry for each stale callback, drops the removed entries that name a route, and
      keeps every other entry as it was, a removed one without a route included. */
  lemma SuccessSaves(cfg: MaybeConfig, username: string, w: World, current: CallbackMap, r: Round, k: string)
    requires Orders(w.snap, current, r.removedKeys, r.staleKeys) && Perform(cfg, username, w, current, r).ok
    requires forall l :: l in current ==> KeyOf(current[l]) == l
    requires forall l :: l in w.snap ==> EntryKey(w.snap[l]) == l
    ensures var after := Perform(cfg, username, w, current, r).world.snap;
      if k in StaleKeys(w.snap, current) then
        HasDomain(cfg) && k in after && Remembers(cfg, username, after[k], current[k])
      else
        && (k in after <==> k in w.snap && (k in current || w.snap[k].routeId == ""))
        && (k in after ==> after[k] == w.snap[k])
  {
    hide HasDomain, DeleteLoop, UpsertLoop, Stale, EntryKey, KeyOf, EntryMap, Remembers, WantedRow, PublishedEntry;
    var removed, added := Pick(w.snap, r.removedKeys), Pick(current, r.staleKeys);
    var deleted := Deletes(cfg, username, w, current, r.removedKeys, r.oracle).world;
    DeleteLoopKeepsEntry(cfg, username, w, removed, r.oracle.deletes, k);
    RemovedAre(w.snap, current, r.removedKeys, k);
    if added == [] {
      assert UpsertLoop(cfg, username, deleted, added, r.oracle.upserts).world == deleted by { NoUpserts(); }
      assert k in StaleKeys(w.snap, current) ==> k in r.staleKeys;
    } else {
      SuccessHasDomain(cfg, username, w, current, r);
      UpsertLoopFiles(cfg, username, deleted, added, r.oracle.upserts);
      Readiness.PutEntriesAreStale(cfg, username, w.snap, current, r.staleKeys);
      if k in StaleKeys(w.snap, current) { PublishedIsRemembered(cfg, username, current[k]); }
    }
  }

  lemma NoUpserts()
    ensures forall cfg, username, w, faults :: UpsertLoop(cfg, username, w, [], faults) == Stage(w, true)
  {}

  lemma RemovedAre(snap: Snapshot, current: CallbackMap, keys: seq<string>, k: string)
    requires Enumerates(keys, RemovedKeys(snap, current)) && forall l :: l in snap ==> EntryKey(snap[l]) == l
    ensures (exists i :: 0 <= i < |keys| && Pick(snap, keys)[i].routeId != "" && EntryKey(Pick(snap, keys)[i]) == k)
      <==> k in RemovedKeys(snap, current) && snap[k].routeId != ""
  {
    hide EntryKey;
    if k in RemovedKeys(snap, current) {
      var i :| 0 <= i < |keys| && keys[i] == k;
      assert Pick(snap, keys)[i] == snap[k];
    }
  }
}
