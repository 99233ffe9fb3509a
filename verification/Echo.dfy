/** A configuration under which the watcher never comes to rest although every synchronisation succeeds:
    the URL is written over the hint that the next synchronisation reads. */
module Echo {
  import opened Text
  import opened Identity
  import opened Callbacks
  import opened Watcher
  import opened Reconcile
  import opened Readiness
  import opened Feedback
  import opened Examples

  // ----- The configuration -----

  const HINT_KEY := DefaultKey("cal", HINT_FIELD)

  const PORT_KEY := DefaultKey("cal", PORT_FIELD)

  /** The callback on port 19000 with this hint. */
  function Echoed(hint: string): CallbackRoute { CallbackRoute("cal", hint, 19000, HINT_KEY, PORT_KEY) }

  /** One plugin, which asks for port 19000, leaves its hint to its settings, has its URL written there, and
      has this hint in its settings now. */
  predicate Echoes(entries: Entries, hint: string) {
    && entries.Keys == {"cal"} && entries["cal"].callback == Callback(19000, 0, "", HINT_KEY, "")
    && HINT_FIELD in entries["cal"].config && entries["cal"].config[HINT_FIELD] == Str(hint)
    && hint != "" && CleanEdges(hint, IsSpace)
  }

  lemma EchoIsRead(entries: Entries, hint: string)
    requires Echoes(entries, hint)
    ensures CallbackOf("cal", entries["cal"]) == Ok(Some(Echoed(hint)))
  {
    TrimKeepsClean(hint, IsSpace);
    TrimKeepsClean(HINT_KEY, IsSpace);
    hide Trim, DefaultKey;
  }

  lemma EchoIsFound(entries: Entries, hint: string)
    requires Echoes(entries, hint)
    ensures !Broken(entries) && IsCurrent(Only(Echoed(hint)), entries)
  {
    EchoIsRead(entries, hint);
    hide CallbackOf, KeyOf, Wanted, Broken, Echoed;
    AllAreWanted(entries, map["cal" := Echoed(hint)]);
    assert Echoed(hint).pluginId == "cal" by { EchoedIsCal(hint); }
  }

  lemma EchoedIsCal(hint: string)
    ensures Echoed(hint).pluginId == "cal" && Echoed(hint).hostnameHint == hint && Echoed(hint).localPort == 19000
  {}

  /** The write-back puts the URL where the hint was. */
  lemma EchoIsWritten(entries: Entries, hint: string, url: string, asNumber: bool)
    requires Echoes(entries, hint) && url != "" && CleanEdges(url, IsSpace)
    ensures Echoes(SetCallback(entries, Echoed(hint), url, 19000, Written, asNumber), url)
  {
    FieldsDiffer();
    DefaultKeySets(entries, "cal", HINT_FIELD, Str(url));
    var first := ConfigSet(entries, HINT_KEY, Str(url));
    DefaultKeySets(first, "cal", PORT_FIELD, PortValue(19000, asNumber));
    hide ConfigSet, DefaultKey, CleanEdges, PortValue;
  }

  // ----- The hint grows -----

  /** The URL under which a hint is published. */
  function UrlOf(hint: string): string
    requires HasDomain(CONFIG)
  {
    Url(HostOf(CONFIG, "alice", hint))
  }

  lemma LowerConcat(a: string, b: string)
    ensures Lower(a + b) == Lower(a) + Lower(b)
  {}

  lemma SlugIsLower(s: string)
    requires Slugged(s)
    ensures Lower(s) == s
  {}

  lemma Letters()
    ensures |Alphanumerics(Lower("https://"))| > 0
  {
    var s := Lower("https://");
    assert s[0] == 'h';
    assert Alphanumeric('h') == "h";
  }

  /** The slug of the URL holds all letters and digits of the slug in it, and more. */
  lemma UrlIsLonger(hint: string)
    requires HasDomain(CONFIG)
    ensures |Alphanumerics(Slug(UrlOf(hint)))| > |Alphanumerics(Slug(hint))|
  {
    var slug := Slug(hint);
    SlugIsSlugged(hint);
    SlugKeepsAlphanumerics(UrlOf(hint));
    var rest := UrlRest(hint);
    hide Slug, Alphanumerics, Slugged;
    LowerConcat("https://", slug + rest);
    LowerConcat(slug, rest);
    SlugIsLower(slug);
    AlphanumericsConcat(Lower("https://"), slug + Lower(rest));
    AlphanumericsConcat(slug, Lower(rest));
    Letters();
  }

  lemma Regrouped(slug: string, user: string, zone: string)
    ensures slug + "." + user + zone == slug + ("." + user + zone)
  {}

  lemma ZoneEnds()
    ensures var zone := Zone(CONFIG.value); zone != "" && zone[|zone| - 1] == 'm'
  {
    TrimKeepsClean("example.com", IsSpace);
    hide Trim;
    var zone := Zone(CONFIG.value);
    assert zone == "." + TrimSpace("ui") + "." + "example.com";
  }

  lemma UrlRest(hint: string) returns (rest: string)
    requires HasDomain(CONFIG)
    ensures UrlOf(hint) == "https://" + (Slug(hint) + rest)
    ensures rest != "" && rest[|rest| - 1] == 'm'
  {
    hide Slug, Zone, HasDomain;
    rest := "." + Slug("alice") + Zone(CONFIG.value);
    ZoneEnds();
    Regrouped(Slug(hint), Slug("alice"), Zone(CONFIG.value));
  }

  lemma UrlIsHint(hint: string)
    requires HasDomain(CONFIG)
    ensures UrlOf(hint) != "" && CleanEdges(UrlOf(hint), IsSpace) && Slug(UrlOf(hint)) != ""
    ensures UrlOf(hint) != hint
  {
    var rest := UrlRest(hint);
    UrlIsLonger(hint);
    hide Slug, UrlOf;
    assert Alphanumerics("") == "";
  }

  // ----- The run -----

  /** The callback was published last, and its URL stands where discovery reads the hint. */
  predicate Spiral(w: World, hint: string) {
    && PublishedOnly(w, Echoed(hint)) && Echoes(w.entries, UrlOf(hint))
  }

  lemma EchoedFacts(hint: string)
    requires Slug(hint) != ""
    ensures Publishable(Echoed(hint)) && Without(Echoed(hint).pluginId, NUL)
  {
    hide Slug;
    Slugs();
  }

  lemma EchoedKeysDiffer(hint: string, other: string)
    requires hint != other
    ensures KeyOf(Echoed(hint)) != KeyOf(Echoed(other))
  {
    assert KeyOf(Echoed(hint))[4..] == hint && KeyOf(Echoed(other))[4..] == other;
  }

  /** One publication, written back. */
  lemma OneIsWritten(w: World, c: CallbackRoute)
    requires HasDomain(CONFIG) && UpsertLoop(CONFIG, "alice", w, [c], []).ok
    ensures UpsertLoop(CONFIG, "alice", w, [c], []).world.entries
      == SetCallback(w.entries, c, Url(HostOf(CONFIG, "alice", c.hostnameHint)), c.localPort, Written, false)
  {
    hide RemoteUpsert, SetCallback, KeyOf, PublishedEntry, HasDomain;
    UpsertTouches(CONFIG, "alice", w.db, c, NoFault, "");
    RowNames(c);
    assert [c][1..] == [];
  }

  lemma RowNames(c: CallbackRoute)
    requires HasDomain(CONFIG)
    ensures WantedRow(CONFIG, "alice", c).hostname == HostOf(CONFIG, "alice", c.hostnameHint)
    ensures WantedRow(CONFIG, "alice", c).localPort == c.localPort
  {
    hide HasDomain, HostOf, Slug;
  }

  function EchoPass(removedKeys: seq<string>, hint: string): Pass {
    Pass(Only(Echoed(hint)), Round(removedKeys, [KeyOf(Echoed(hint))], SMOOTH_ORACLE))
  }

  /** From a ready start, one pass publishes the hint and writes its URL over it. */
  lemma EchoTurns(w: World, hint: string, removedKeys: seq<string>)
    requires IsStart(CONFIG, "alice", w, Only(Echoed(hint))) && HasDomain(CONFIG)
    requires Echoes(w.entries, hint) && Slug(hint) != ""
    requires Orders(w.snap, Only(Echoed(hint)), removedKeys, [KeyOf(Echoed(hint))])
    requires forall x :: x in w.db.routes ==> Mine("alice", w.db.routes[x])
    ensures var p := EchoPass(removedKeys, hint);
      && Fits(w, p) && TakePass(CONFIG, "alice", w, p).ok && PassWrites(CONFIG, "alice", w, p) != 0
      && Spiral(TakePass(CONFIG, "alice", w, p).world, hint)
  {
    hide Home, Tracked, Keyed, Ready, InStep, Mirrors, AllApart, NoneShared, OthersSame, KeyOf, Only, Broken,
         IsCurrent, SnapshotOf, Orders, SyncInOrder, Faultless, Echoes, Echoed, Slug, Mine, Writes, HasDomain, WantedId;
    var c, r := Echoed(hint), EchoPass(removedKeys, hint).round;
    SmoothIsFaultless();
    EchoIsFound(w.entries, hint);
    SyncReconciles(CONFIG, "alice", w, Only(c), r.removedKeys, r.staleKeys, r.oracle);
    SyncKeepsHome(CONFIG, "alice", w, Only(c), r.removedKeys, r.staleKeys, r.oracle);
    OnlyRow(w.db, TakePass(CONFIG, "alice", w, EchoPass(removedKeys, hint)).world.db, c);
    ReadyWrites(w, hint, r);
    EchoGoesOn(w, hint, r);
  }

  lemma SmoothIsFaultless()
    ensures Faultless(SMOOTH_ORACLE)
  {}

  lemma ReadyWrites(w: World, hint: string, r: Round)
    requires IsStart(CONFIG, "alice", w, Only(Echoed(hint))) && r.oracle == SMOOTH_ORACLE
    requires r.staleKeys == [KeyOf(Echoed(hint))] && Orders(w.snap, Only(Echoed(hint)), r.removedKeys, r.staleKeys)
    ensures Writes(CONFIG, "alice", w, Only(Echoed(hint)), r) != 0
  {
    hide Home, Ready, RemovedInPlace, Publishable, Clash, Blocked, Echoed, KeyOf, Stale, Writes, Only;
    ReadyIsUnobstructed(CONFIG, "alice", w.db, w.snap, Only(Echoed(hint)));
    assert r.staleKeys[0] in StaleKeys(w.snap, Only(Echoed(hint)));
    WritesExactly(CONFIG, "alice", w, Only(Echoed(hint)), r);
  }

  lemma EchoGoesOn(w: World, hint: string, r: Round)
    requires HasDomain(CONFIG) && Echoes(w.entries, hint) && Slug(hint) != "" && r.oracle == SMOOTH_ORACLE
    requires r.staleKeys == [KeyOf(Echoed(hint))] && Orders(w.snap, Only(Echoed(hint)), r.removedKeys, r.staleKeys)
    requires Perform(CONFIG, "alice", w, Only(Echoed(hint)), r).ok
    ensures Echoes(Perform(CONFIG, "alice", w, Only(Echoed(hint)), r).world.entries, UrlOf(hint))
  {
    hide KeyOf, Slug, DeleteLoop, UpsertLoop, HasDomain, Echoes, Echoed, RemovedKeys, StaleKeys, SetCallback, HostOf;
    EchoedIsCal(hint);
    UrlIsHint(hint);
    var c := Echoed(hint);
    SyncEnds(CONFIG, "alice", w, Only(c), r.removedKeys, r.staleKeys, r.oracle);
    PickOnly(c);
    var deleted := Deletes(CONFIG, "alice", w, Only(c), r.removedKeys, r.oracle).world;
    EntriesStay(w, Only(c), r);
    OneIsWritten(deleted, c);
    EchoIsWritten(w.entries, hint, UrlOf(hint), false);
  }

  lemma PickOnly(c: CallbackRoute)
    ensures Pick(Only(c), [KeyOf(c)]) == [c]
  {
    hide KeyOf;
  }

  lemma EntriesStay(w: World, current: CallbackMap, r: Round)
    requires Enumerates(r.removedKeys, RemovedKeys(w.snap, current))
    ensures Deletes(CONFIG, "alice", w, current, r.removedKeys, r.oracle).world.entries == w.entries
  {
    hide DeleteLoop;
    DeleteLoopRow(CONFIG, "alice", w, Pick(w.snap, r.removedKeys), r.oracle.deletes, "");
  }

  /** From then on each pass deletes the route of the one before and publishes a longer hostname. */
  lemma SpiralTurns(w: World, hint: string)
    requires Spiral(w, hint) && Slug(hint) != ""
    ensures var p := EchoPass([KeyOf(Echoed(hint))], UrlOf(hint));
      && Fits(w, p) && TakePass(CONFIG, "alice", w, p).ok && PassWrites(CONFIG, "alice", w, p) != 0
      && Spiral(TakePass(CONFIG, "alice", w, p).world, UrlOf(hint)) && Slug(UrlOf(hint)) != ""
  {
    hide KeyOf, Slug, HasDomain, Echoes, Echoed, IsStart, Orders, Only, Home, InStep, SnapshotOf, WantedId, Mirrors,
         AllApart, Tracked, Mine, Publishable, TakePass, PassWrites, Fits;
    UrlIsHint(hint);
    EchoedFacts(hint);
    EchoedFacts(UrlOf(hint));
    EchoedKeysDiffer(hint, UrlOf(hint));
    SavedEntry(w, Echoed(hint));
    PublishedFacts(w, Echoed(hint));
    ExchangeStarts(w, Echoed(hint), Echoed(UrlOf(hint)));
    ExchangedOrders(w, KeyOf(Echoed(hint)), Echoed(UrlOf(hint)));
    EchoTurns(w, UrlOf(hint), [KeyOf(Echoed(hint))]);
  }

  function SpiralPasses(hint: string, n: nat): seq<Pass>
    requires HasDomain(CONFIG)
    decreases n
  {
    if n == 0 then [] else [EchoPass([KeyOf(Echoed(hint))], UrlOf(hint))] + SpiralPasses(UrlOf(hint), n - 1)
  }

  /** A pass that succeeds and writes, in front of passes that all do. */
  lemma Prepended(w: World, p: Pass, rest: seq<Pass>)
    requires Fits(w, p) && TakePass(CONFIG, "alice", w, p).ok && PassWrites(CONFIG, "alice", w, p) != 0
    requires var next := TakePass(CONFIG, "alice", w, p).world;
      && Chain(CONFIG, "alice", next, rest) && AllSucceed(CONFIG, "alice", next, rest)
      && Cascade(CONFIG, "alice", next, rest) == |rest|
    ensures var passes := [p] + rest;
      && Chain(CONFIG, "alice", w, passes) && AllSucceed(CONFIG, "alice", w, passes)
      && Cascade(CONFIG, "alice", w, passes) == |passes|
  {
    hide Fits, TakePass, PassWrites;
    assert ([p] + rest)[1..] == rest;
  }

  lemma NothingChained(w: World)
    ensures Chain(CONFIG, "alice", w, []) && AllSucceed(CONFIG, "alice", w, []) && Cascade(CONFIG, "alice", w, []) == 0
  {}

  lemma SpiralHasDomain(w: World, hint: string)
    requires Spiral(w, hint)
    ensures HasDomain(CONFIG)
  {}

  lemma {:induction false} SpiralGoesOn(w: World, hint: string, n: nat)
    requires Spiral(w, hint) && Slug(hint) != ""
    ensures HasDomain(CONFIG) && |SpiralPasses(hint, n)| == n
    ensures var passes := SpiralPasses(hint, n);
      && Chain(CONFIG, "alice", w, passes) && AllSucceed(CONFIG, "alice", w, passes)
      && Cascade(CONFIG, "alice", w, passes) == n
    decreases n
  {
    hide Spiral, Slug, HasDomain, EchoPass, UrlOf, Fits, TakePass, PassWrites, Chain, AllSucceed, Cascade, KeyOf,
         Echoed;
    SpiralHasDomain(w, hint);
    if n == 0 {
      NothingChained(w);
    } else {
      SpiralTurns(w, hint);
      var p := EchoPass([KeyOf(Echoed(hint))], UrlOf(hint));
      SpiralGoesOn(TakePass(CONFIG, "alice", w, p).world, UrlOf(hint), n - 1);
      Prepended(w, p, SpiralPasses(UrlOf(hint), n - 1));
    }
  }

  /** The configuration before the first synchronisation. */
  function FirstEntries(): Entries {
    map["cal" := PluginEntry(map[HINT_FIELD := Str("oauth")], Callback(19000, 0, "", HINT_KEY, ""))]
  }

  function EchoPasses(n: nat): seq<Pass>
    requires HasDomain(CONFIG)
  {
    [EchoPass([], "oauth")] + SpiralPasses("oauth", n)
  }

  /** A watcher that never rests although no synchronisation meets a fault and every one succeeds: each is
      about what discovery finds at that moment, deletes the route of the one before, publishes a longer
      hostname and writes it over the hint, and so causes the next, for ever. */
  lemma SuccessNeverRests(n: nat)
    ensures HasDomain(CONFIG)
    ensures var w, passes := START.(entries := FirstEntries()), EchoPasses(n);
      && |passes| == n + 1 && AllFaultless(passes)
      && Chain(CONFIG, "alice", w, passes) && AllSucceed(CONFIG, "alice", w, passes)
      && Cascade(CONFIG, "alice", w, passes) == n + 1
      && forall i :: 0 < i < |passes| ==> passes[i].round.removedKeys != []
  {
    FirstEchoes();
    hide Slug, HasDomain, KeyOf, Echoed, Only, UrlOf, Fits, TakePass, PassWrites, IsStart, Orders, FirstEntries, Spiral,
         Echoes, Home, Chain, AllSucceed, Cascade, Faultless;
    OneUserIsHome();
    Slugs();
    FirstIsStart();
    FirstOrders(Echoed("oauth"));
    var w, p := START.(entries := FirstEntries()), EchoPass([], "oauth");
    EchoTurns(w, "oauth", []);
    SpiralGoesOn(TakePass(CONFIG, "alice", w, p).world, "oauth", n);
    Prepended(w, p, SpiralPasses("oauth", n));
    SpiralShape("oauth", n);
    SmoothIsFaultless();
  }

  lemma {:induction false} SpiralShape(hint: string, n: nat)
    requires HasDomain(CONFIG)
    ensures |SpiralPasses(hint, n)| == n && AllFaultless(SpiralPasses(hint, n))
    ensures forall i :: 0 <= i < n ==> SpiralPasses(hint, n)[i].round.removedKeys != []
    decreases n
  {
    hide HasDomain, KeyOf, Echoed, Only, UrlOf, Faultless;
    SmoothIsFaultless();
    if n > 0 { SpiralShape(UrlOf(hint), n - 1); }
  }

  lemma FirstEchoes()
    ensures Echoes(FirstEntries(), "oauth")
  {}

  lemma FirstIsStart()
    requires HasDomain(CONFIG)
    ensures IsStart(CONFIG, "alice", START.(entries := FirstEntries()), Only(Echoed("oauth")))
  {
    hide Slug, HasDomain, KeyOf, Echoed, Only, Home, Tracked, Keyed, Ready, Servable, NoneShared, Publishable,
         FirstEntries;
    Slugs();
    EchoedFacts("oauth");
    OnlyFacts(Echoed("oauth"));
    OnlyIsServable(ONE_USER, map[], Echoed("oauth"));
    FirstStartIsReady(Only(Echoed("oauth")));
  }
}
