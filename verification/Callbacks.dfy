/** The watcher's inputs: callback discovery in the plugin configuration, the write-back of a
    published callback, and the difference to the saved snapshot. */
module Callbacks {
  import opened Text

  /** A configuration value as decoded from JSON. */
  datatype Value = Str(text: string) | Num(number: real) | Other

  datatype Callback = Callback(localPort: int, legacyPort: int, hostnameHint: string, urlKey: string, portKey: string)

  datatype PluginEntry = PluginEntry(config: map<string, Value>, callback: Callback)

  type Entries = map<string, PluginEntry>

  datatype CallbackRoute = CallbackRoute(pluginId: string, hostnameHint: string, localPort: int,
                                         urlKey: string, portKey: string)

  type CallbackMap = map<string, CallbackRoute>

  datatype DiscoverError = PortOutOfRange(pluginId: string, port: int) | NoCallbackRoutes

  const URL_FIELD := "callbackUrl"
  const PORT_FIELD := "callbackPort"
  const HINT_FIELD := "callbackHostnameHint"

  /** Conversion of a number to an integer drops the fraction. */
  function Truncate(r: real): int {
    if r >= 0.0 then r.Floor else -((-r).Floor)
  }

  function IntFromConfig(values: map<string, Value>, key: string): int {
    if key !in values then 0
    else match values[key]
      case Num(r) => Truncate(r)
      case Str(s) => (match Atoi(TrimSpace(s)) case Some(n) => n case None => 0)
      case Other => 0
  }

  function StringFromConfig(values: map<string, Value>, key: string): string {
    if key in values && values[key].Str? then TrimSpace(values[key].text) else ""
  }

  function DefaultString(value: string, otherwise: string): string {
    if TrimSpace(value) != "" then TrimSpace(value) else otherwise
  }

  function DefaultKey(pluginId: string, field: string): string {
    "plugins.entries." + pluginId + ".config." + field
  }

  /** The port of an entry: explicit, legacy, or from the plugin's own settings. */
  function PortOf(entry: PluginEntry): int {
    if entry.callback.localPort != 0 then entry.callback.localPort
    else if entry.callback.legacyPort != 0 then entry.callback.legacyPort
    else IntFromConfig(entry.config, PORT_FIELD)
  }

  function HintOf(entry: PluginEntry): string {
    if TrimSpace(entry.callback.hostnameHint) != "" then TrimSpace(entry.callback.hostnameHint)
    else if StringFromConfig(entry.config, HINT_FIELD) != "" then StringFromConfig(entry.config, HINT_FIELD)
    else "callback"
  }

  /** The callback an entry asks for, if it asks for one. */
  function CallbackOf(pluginId: string, entry: PluginEntry): Result<Option<CallbackRoute>, DiscoverError> {
    var port := PortOf(entry);
    if port == 0 then Ok(None)
    else if port < 1 || port > 65535 then Err(PortOutOfRange(pluginId, port))
    else Ok(Some(CallbackRoute(pluginId, HintOf(entry), port,
                               DefaultString(entry.callback.urlKey, DefaultKey(pluginId, URL_FIELD)),
                               DefaultString(entry.callback.portKey, DefaultKey(pluginId, PORT_FIELD)))))
  }

  /** The number a setting stands for: a number without its fraction, or a decimal numeral. */
  predicate StandsFor(v: Value, n: int) {
    match v
    case Num(r) => if n > 0 then n as real <= r < (n + 1) as real
                   else if n < 0 then (n - 1) as real < r <= n as real else -1.0 < r < 1.0
    case Str(s) => Atoi(TrimSpace(s)) == Some(n) || (n == 0 && Atoi(TrimSpace(s)).None?)
    case Other => n == 0
  }

  lemma TruncateIsExact(r: real, n: int)
    ensures Truncate(r) == n <==> StandsFor(Num(r), n)
  {}

  /** A port of a plugin comes from the first of three places that names one other than 0: the callback's own,
      the older one, and the plugin's settings. */
  predicate PortIs(entry: PluginEntry, port: int) {
    if entry.callback.localPort != 0 then port == entry.callback.localPort
    else if entry.callback.legacyPort != 0 then port == entry.callback.legacyPort
    else if "callbackPort" in entry.config then StandsFor(entry.config["callbackPort"], port) else port == 0
  }

  /** Discovery finds no callback exactly if no place names a port, fails exactly for a port outside 1 to
      65535, and otherwise takes hint and keys as given, the hint else from the plugin's settings, with
      "callback" and two settings of the plugin as defaults. */
  lemma DiscoveryReads(p: string, entry: PluginEntry, port: int)
    requires PortIs(entry, port)
    ensures CallbackOf(p, entry) == Ok(None) <==> port == 0
    ensures CallbackOf(p, entry).Err? <==> port < 0 || port > 65535
    ensures CallbackOf(p, entry).Err? ==> CallbackOf(p, entry).error == PortOutOfRange(p, port)
    ensures 1 <= port <= 65535 ==> CallbackOf(p, entry).Ok? && CallbackOf(p, entry).value.Some?
    ensures 1 <= port <= 65535 ==>
      var c, given := CallbackOf(p, entry).value.value, entry.callback;
      && c.pluginId == p && c.localPort == port
      && (TrimSpace(given.hostnameHint) != "" ==> c.hostnameHint == TrimSpace(given.hostnameHint))
      && (TrimSpace(given.hostnameHint) == "" ==>
            if "callbackHostnameHint" in entry.config && entry.config["callbackHostnameHint"].Str?
              && TrimSpace(entry.config["callbackHostnameHint"].text) != ""
            then c.hostnameHint == TrimSpace(entry.config["callbackHostnameHint"].text)
            else c.hostnameHint == "callback")
      && (c.urlKey == if TrimSpace(given.urlKey) != "" then TrimSpace(given.urlKey)
                      else "plugins.entries." + p + ".config.callbackUrl")
      && (c.portKey == if TrimSpace(given.portKey) != "" then TrimSpace(given.portKey)
                       else "plugins.entries." + p + ".config.callbackPort")
  {
    hide TrimSpace, Atoi;
    if "callbackPort" in entry.config && entry.config["callbackPort"].Num? {
      TruncateIsExact(entry.config["callbackPort"].number, port);
    }
  }

  predicate Asks(entries: Entries, p: string) {
    p in entries && CallbackOf(p, entries[p]).Ok? && CallbackOf(p, entries[p]).value.Some?
  }

  /** All callbacks asked for, by plugin. */
  function Wanted(entries: Entries): CallbackMap {
    map p | p in entries && Asks(entries, p) :: CallbackOf(p, entries[p]).value.value
  }

  predicate Broken(entries: Entries) {
    exists p :: p in entries && CallbackOf(p, entries[p]).Err?
  }

  /** `rs` lists the wanted callbacks, each once. */
  predicate ListsWanted(rs: seq<CallbackRoute>, entries: Entries) {
    && (forall i :: 0 <= i < |rs| ==> rs[i].pluginId in Wanted(entries) && Wanted(entries)[rs[i].pluginId] == rs[i])
    && (forall p :: p in Wanted(entries) ==> Wanted(entries)[p] in rs)
    && (forall i, j :: 0 <= i < j < |rs| ==> rs[i].pluginId != rs[j].pluginId)
  }

  /** Discovery visits the entries in any order and stops at the first port out of range. */
  method DiscoverCallbacks(entries: Entries) returns (r: Result<seq<CallbackRoute>, DiscoverError>)
    ensures r.Ok? ==> r.value != [] && !Broken(entries) && ListsWanted(r.value, entries)
    ensures r == Err(NoCallbackRoutes) ==> !Broken(entries) && Wanted(entries) == map[]
    ensures r.Err? && r.error.PortOutOfRange? ==>
      r.error.pluginId in entries && CallbackOf(r.error.pluginId, entries[r.error.pluginId]) == Err(r.error)
  {
    var routes: seq<CallbackRoute> := [];
    var todo := entries.Keys;
    while todo != {}
      invariant todo <= entries.Keys
      invariant forall p :: p in entries && p !in todo ==> CallbackOf(p, entries[p]).Ok?
      invariant forall i :: 0 <= i < |routes| ==>
        && routes[i].pluginId !in todo && Asks(entries, routes[i].pluginId)
        && CallbackOf(routes[i].pluginId, entries[routes[i].pluginId]).value.value == routes[i]
      invariant forall p :: p in entries && p !in todo && Asks(entries, p) ==>
            CallbackOf(p, entries[p]).value.value in routes
      invariant forall i, j :: 0 <= i < j < |routes| ==> routes[i].pluginId != routes[j].pluginId
      decreases |todo|
    {
      var p :| p in todo;
      var c := CallbackOf(p, entries[p]);
      if c.Err? { return Err(c.error); }
      if c.value.Some? { routes := routes + [c.value.value]; }
      todo := todo - {p};
    }
    if routes == [] { return Err(NoCallbackRoutes); }
    return Ok(routes);
  }

  // ----- Writing a published callback back -----

  /** What the configuration command does with a dotted path. Paths that do not name a field of
      an existing plugin's own settings do not reach anything discovery reads. */
  function ConfigSet(entries: Entries, key: string, v: Value): Entries {
    var parts := Split(key, '.');
    if |parts| == 5 && parts[0] == "plugins" && parts[1] == "entries" && parts[3] == "config"
      && parts[2] in entries then
      entries[parts[2] := entries[parts[2]].(config := entries[parts[2]].config[parts[4] := v])]
    else entries
  }

  /** The command may store the port as text or as a number. */
  function PortValue(port: int, asNumber: bool): Value {
    if asNumber then Num(port as real) else Str(Itoa(port))
  }

  datatype WriterFault = Written | UrlFails | PortFails

  function SetCallback(entries: Entries, c: CallbackRoute, url: string, port: int, f: WriterFault,
      asNumber: bool): Entries {
    if f == UrlFails then entries
    else
      var first := ConfigSet(entries, c.urlKey, Str(url));
      if f == PortFails then first else ConfigSet(first, c.portKey, PortValue(port, asNumber))
  }

  /** The path names a setting of a plugin that is there. */
  predicate NamesSetting(entries: Entries, key: string) {
    var parts := Split(key, '.');
    |parts| == 5 && parts[0] == "plugins" && parts[1] == "entries" && parts[3] == "config" && parts[2] in entries
  }

  /** Discovery reads the port of the entry from its settings. */
  predicate ReadsPort(entry: PluginEntry) { entry.callback.localPort == 0 && entry.callback.legacyPort == 0 }

  /** Discovery finds a callback in the entry and reads its hint from the settings. */
  predicate ReadsHint(entry: PluginEntry) {
    1 <= PortOf(entry) <= 65535 && TrimSpace(entry.callback.hostnameHint) == ""
  }

  /** The setting is one that discovery reads, and with this value it reads another port or hint there. */
  predicate ReadsAnew(entry: PluginEntry, field: string, v: Value) {
    var next := entry.(config := entry.config[field := v]);
    || (field == PORT_FIELD && ReadsPort(entry)
        && IntFromConfig(next.config, PORT_FIELD) != IntFromConfig(entry.config, PORT_FIELD))
    || (field == HINT_FIELD && ReadsHint(entry) && HintOf(next) != HintOf(entry))
  }

  predicate Overwrites(entries: Entries, key: string, v: Value) {
    NamesSetting(entries, key) && ReadsAnew(entries[Split(key, '.')[2]], Split(key, '.')[4], v)
  }

  /** The write-back, as far as it gets, overwrites nothing that discovery reads. */
  predicate WriteSpares(entries: Entries, c: CallbackRoute, url: string, port: int, f: WriterFault, asNumber: bool) {
    f != UrlFails ==>
      && !Overwrites(entries, c.urlKey, Str(url))
      && (f == Written ==> !Overwrites(ConfigSet(entries, c.urlKey, Str(url)), c.portKey, PortValue(port, asNumber)))
  }

  /** Discovery finds the same in both configurations. */
  predicate AsksTheSame(a: Entries, b: Entries) {
    a.Keys == b.Keys && forall q :: q in a ==> CallbackOf(q, b[q]) == CallbackOf(q, a[q])
  }

  lemma EntryIsExact(p: string, entry: PluginEntry, field: string, v: Value)
    ensures CallbackOf(p, entry.(config := entry.config[field := v])) == CallbackOf(p, entry)
      <==> !ReadsAnew(entry, field, v)
  {
    FieldsDiffer();
    var next := entry.(config := entry.config[field := v]);
    if field != PORT_FIELD { assert IntFromConfig(next.config, PORT_FIELD) == IntFromConfig(entry.config, PORT_FIELD); }
    if field != HINT_FIELD {
      assert StringFromConfig(next.config, HINT_FIELD) == StringFromConfig(entry.config, HINT_FIELD);
    }
    hide IntFromConfig, StringFromConfig, TrimSpace;
  }

  /** One write leaves discovery as it was exactly if it does not overwrite a port or a hint that is read
      from there by another one. */
  lemma WriteIsExact(entries: Entries, key: string, v: Value)
    ensures AsksTheSame(entries, ConfigSet(entries, key, v)) <==> !Overwrites(entries, key, v)
  {
    hide CallbackOf, ReadsAnew, Split;
    if NamesSetting(entries, key) {
      var p, field := Split(key, '.')[2], Split(key, '.')[4];
      EntryIsExact(p, entries[p], field, v);
      var after := ConfigSet(entries, key, v);
      assert after[p] == entries[p].(config := entries[p].config[field := v]);
    }
  }

  lemma AsksTheSameTwice(a: Entries, b: Entries, c: Entries)
    requires AsksTheSame(a, b)
    ensures AsksTheSame(a, c) <==> AsksTheSame(b, c)
  {
    hide CallbackOf;
  }

  /** A write-back leaves discovery as it was at every moment exactly if it overwrites nothing that
      discovery reads. */
  lemma WriteBackIsExact(entries: Entries, c: CallbackRoute, url: string, port: int, f: WriterFault, asNumber: bool)
    ensures WriteSpares(entries, c, url, port, f, asNumber) <==>
      && (f != UrlFails ==> AsksTheSame(entries, ConfigSet(entries, c.urlKey, Str(url))))
      && AsksTheSame(entries, SetCallback(entries, c, url, port, f, asNumber))
  {
    hide Overwrites, ConfigSet, AsksTheSame, PortValue;
    if f == UrlFails {
      NothingAsksAnew(entries);
    } else {
      var first := ConfigSet(entries, c.urlKey, Str(url));
      WriteIsExact(entries, c.urlKey, Str(url));
      WriteIsExact(first, c.portKey, PortValue(port, asNumber));
      if AsksTheSame(entries, first) {
        AsksTheSameTwice(entries, first, SetCallback(entries, c, url, port, f, asNumber));
        NothingAsksAnew(first);
      }
    }
  }

  lemma NothingAsksAnew(entries: Entries)
    ensures AsksTheSame(entries, entries)
  {}

  /** The path names no field that discovery reads from a plugin's own settings. */
  predicate SparesSettings(key: string) {
    var parts := Split(key, '.');
    |parts| == 5 && parts[0] == "plugins" && parts[1] == "entries" && parts[3] == "config" ==>
      parts[4] != PORT_FIELD && parts[4] != HINT_FIELD
  }

  /** The path names the port in the settings of the plugin. */
  predicate OwnPort(p: string, key: string) {
    Split(key, '.') == ["plugins", "entries", p, "config", PORT_FIELD]
  }

  predicate Harmless(p: string, c: CallbackRoute) {
    SparesSettings(c.urlKey) && (SparesSettings(c.portKey) || OwnPort(p, c.portKey))
  }

  /** No callback is written over what discovery reads, except for a plugin's own port. */
  predicate HarmlessKeys(entries: Entries) {
    forall p :: p in Wanted(entries) ==> Harmless(p, Wanted(entries)[p])
  }

  lemma FieldsDiffer()
    ensures URL_FIELD != HINT_FIELD && PORT_FIELD != HINT_FIELD && URL_FIELD != PORT_FIELD
    ensures Without(URL_FIELD, '.') && Without(PORT_FIELD, '.') && Without(HINT_FIELD, '.')
  {
    assert |URL_FIELD| == 11 && |PORT_FIELD| == 12 && |HINT_FIELD| == 20;
  }

  lemma ConcatHead<T>(x: seq<T>, y: seq<T>)
    requires x != []
    ensures (x + y)[0] == x[0] && (x + y)[1..] == x[1..] + y
  {}

  lemma ConcatAssociates<T>(x: seq<T>, y: seq<T>, z: seq<T>)
    ensures x + (y + z) == (x + y) + z
  {}

  lemma {:induction false} SplitConcat(a: string, sep: char, b: string)
    ensures Split(a + ([sep] + b), sep) == Split(a, sep) + Split(b, sep)
    decreases |a|
  {
    var tail := [sep] + b;
    if a == [] {
      assert a + tail == tail && tail[1..] == b;
    } else {
      ConcatHead(a, tail);
      SplitConcat(a[1..], sep, b);
      var first, rest := Split(a[1..], sep), Split(b, sep);
      if a[0] == sep {
        ConcatAssociates([""], first, rest);
      } else {
        ConcatHead(first, rest);
        ConcatAssociates([[a[0]] + first[0]], first[1..], rest);
      }
    }
  }

  lemma DefaultKeyShape(p: string, field: string)
    ensures DefaultKey(p, field)
      == "plugins" + ['.'] + ("entries" + ['.'] + (p + (['.'] + ("config" + ['.'] + field))))
  {
    var front, back := "plugins.entries.", ".config." + field;
    assert back == ['.'] + ("config" + ['.'] + field);
    ConcatAssociates(front, p, back);
    assert DefaultKey(p, field) == front + (p + back);
    assert front == "plugins" + ['.'] + ("entries" + ['.']);
  }

  /** The pieces of a default key, whatever the plugin is called. */
  lemma DefaultKeyPath(p: string, field: string)
    requires Without(field, '.')
    ensures Split(DefaultKey(p, field), '.') == ["plugins", "entries"] + Split(p, '.') + ["config", field]
  {
    DefaultKeyShape(p, field);
    hide Split, DefaultKey;
    var t2 := "config" + ['.'] + field;
    var t1 := p + (['.'] + t2);
    SplitFirst("plugins", '.', "entries" + ['.'] + t1);
    SplitFirst("entries", '.', t1);
    SplitConcat(p, '.', t2);
    SplitFirst("config", '.', field);
    SplitClean(field, '.');
  }

  /** The default keys are harmless: the URL goes to a field that discovery does not read, the port to
      the plugin's own, unless a dot in the plugin ID leads the path elsewhere. */
  lemma DefaultKeysAreHarmless(p: string, c: CallbackRoute)
    requires c.urlKey == DefaultKey(p, URL_FIELD) && c.portKey == DefaultKey(p, PORT_FIELD)
    ensures Harmless(p, c)
  {
    FieldsDiffer();
    DefaultKeyPath(p, URL_FIELD);
    DefaultKeyPath(p, PORT_FIELD);
    if |Split(p, '.')| == 1 { OnePiece(p, '.'); }
  }

  lemma {:induction false} OnePiece(s: string, sep: char)
    requires |Split(s, sep)| == 1
    ensures Split(s, sep) == [s]
  {
    if s != [] {
      OnePiece(s[1..], sep);
      assert s == [s[0]] + s[1..];
    }
  }

  lemma PortReadsBack(port: int, asNumber: bool, values: map<string, Value>)
    requires 1 <= port <= 65535 && PORT_FIELD in values && values[PORT_FIELD] == PortValue(port, asNumber)
    ensures IntFromConfig(values, PORT_FIELD) == port
  {
    AtoiItoa(port);
    assert (port as real).Floor == port;
  }

  lemma OwnPortIsSpared(entries: Entries, p: string, key: string, port: int, asNumber: bool)
    requires OwnPort(p, key) && Asks(entries, p) && CallbackOf(p, entries[p]).value.value.localPort == port
    ensures !Overwrites(entries, key, PortValue(port, asNumber))
  {
    FieldsDiffer();
    var next := entries[p].config[PORT_FIELD := PortValue(port, asNumber)];
    PortReadsBack(port, asNumber, next);
  }

  /** Harmless keys overwrite nothing. */
  lemma HarmlessIsSpared(entries: Entries, p: string, url: string, f: WriterFault, asNumber: bool)
    requires p in Wanted(entries) && Harmless(p, Wanted(entries)[p])
    ensures WriteSpares(entries, Wanted(entries)[p], url, Wanted(entries)[p].localPort, f, asNumber)
  {
    var c := Wanted(entries)[p];
    assert Asks(entries, p) && CallbackOf(p, entries[p]).value.value == c;
    hide CallbackOf, ConfigSet, PortValue, OwnPort, ReadsAnew;
    var first := ConfigSet(entries, c.urlKey, Str(url));
    WriteIsExact(entries, c.urlKey, Str(url));
    if OwnPort(p, c.portKey) { OwnPortIsSpared(first, p, c.portKey, c.localPort, asNumber); }
  }

  lemma SameAsking(a: Entries, b: Entries)
    requires AsksTheSame(a, b)
    ensures Wanted(b) == Wanted(a) && (Broken(b) <==> Broken(a))
  {
    assert forall q :: q in a ==> (Asks(b, q) <==> Asks(a, q));
    assert Wanted(b).Keys == Wanted(a).Keys;
    if Broken(a) {
      var q :| q in a && CallbackOf(q, a[q]).Err?;
      assert q in b && CallbackOf(q, b[q]).Err?;
    }
    if Broken(b) {
      var q :| q in b && CallbackOf(q, b[q]).Err?;
      assert q in a && CallbackOf(q, a[q]).Err?;
    }
  }

  /** Writing a published callback back to harmless keys, completely or only in part, leaves every wanted
      callback as it was: the watcher's own write causes nothing new. */
  lemma WriteBackChangesNothing(entries: Entries, p: string, url: string, f: WriterFault, asNumber: bool)
    requires HarmlessKeys(entries) && p in Wanted(entries)
    ensures var c := Wanted(entries)[p];
      var after := SetCallback(entries, c, url, c.localPort, f, asNumber);
      Wanted(after) == Wanted(entries) && (Broken(after) <==> Broken(entries)) && HarmlessKeys(after)
  {
    hide SetCallback, Harmless, Wanted, Broken, AsksTheSame, WriteSpares;
    var c := Wanted(entries)[p];
    HarmlessIsSpared(entries, p, url, f, asNumber);
    WriteBackIsExact(entries, c, url, c.localPort, f, asNumber);
    SameAsking(entries, SetCallback(entries, c, url, c.localPort, f, asNumber));
  }

  /** A plugin whose port is read from its settings and whose URL is written there. */
  function UrlOverPort(p: string, port: int): PluginEntry {
    PluginEntry(map[PORT_FIELD := Num(port as real)], Callback(0, 0, "oauth", DefaultKey(p, PORT_FIELD), ""))
  }

  lemma BeforeTheUrl(p: string, port: int)
    requires 1 <= port <= 65535
    ensures var key := DefaultKey(p, PORT_FIELD);
      CallbackOf(p, UrlOverPort(p, port)) == Ok(Some(CallbackRoute(p, "oauth", port, key, key)))
  {
    TrimKeepsClean(DefaultKey(p, PORT_FIELD), IsSpace);
    TrimKeepsClean("oauth", IsSpace);
    assert (port as real).Floor == port;
    hide Trim;
  }

  lemma AfterTheUrl(p: string, url: string, port: int)
    requires Atoi(TrimSpace(url)).None?
    ensures CallbackOf(p, UrlOverPort(p, port).(config := map[PORT_FIELD := Str(url)])) == Ok(None)
  {
    hide TrimSpace, Atoi;
  }

  /** Writing to a default key sets that field of that plugin. */
  lemma DefaultKeySets(entries: Entries, p: string, field: string, v: Value)
    requires p in entries && Without(p, '.') && Without(field, '.')
    ensures ConfigSet(entries, DefaultKey(p, field), v)
      == entries[p := entries[p].(config := entries[p].config[field := v])]
  {
    DefaultKeyPath(p, field);
    SplitClean(p, '.');
    hide Split, DefaultKey;
  }

  /** Other keys may not be harmless: a plugin that has its URL written where its port is read from asks
      for nothing once it is published. */
  lemma UrlOverThePort(p: string, url: string, port: int)
    requires Without(p, '.') && 1 <= port <= 65535 && Atoi(TrimSpace(url)).None?
    ensures var entries := map[p := UrlOverPort(p, port)];
      && p in Wanted(entries) && Wanted(entries)[p].localPort == port
      && Wanted(SetCallback(entries, Wanted(entries)[p], url, port, PortFails, false)) == map[]
  {
    BeforeTheUrl(p, port);
    AfterTheUrl(p, url, port);
    FieldsDiffer();
    DefaultKeySets(map[p := UrlOverPort(p, port)], p, PORT_FIELD, Str(url));
    assert UrlOverPort(p, port).config[PORT_FIELD := Str(url)] == map[PORT_FIELD := Str(url)];
    hide CallbackOf, ConfigSet, DefaultKey, TrimSpace, Atoi;
  }

  // ----- Snapshots -----

  datatype SnapshotEntry = SnapshotEntry(pluginId: string, hostnameHint: string, localPort: int, routeId: string,
                                         url: string, urlKey: string, portKey: string, synced: bool)

  type Snapshot = map<string, SnapshotEntry>

  const NUL := '\0'

  function SnapshotKey(pluginId: string, hint: string): string { pluginId + [NUL] + hint }

  function KeyOf(c: CallbackRoute): string { SnapshotKey(c.pluginId, c.hostnameHint) }

  function EntryKey(e: SnapshotEntry): string { SnapshotKey(e.pluginId, e.hostnameHint) }

  /** The map the difference is taken against: every wanted callback under its key; under a key
      that two callbacks share, either of them. */
  predicate IsCurrent(current: CallbackMap, entries: Entries) {
    && (forall k :: k in current ==> KeyOf(current[k]) == k)
    && (forall k :: k in current ==>
          current[k].pluginId in Wanted(entries) && Wanted(entries)[current[k].pluginId] == current[k])
    && (forall p :: p in Wanted(entries) ==> KeyOf(Wanted(entries)[p]) in current)
  }

  predicate NulFree(entries: Entries) {
    forall p :: p in Wanted(entries) ==> Without(p, NUL)
  }

  /** Without NUL in plugin IDs the map is unique, whatever order discovery used. */
  lemma CurrentIsUnique(a: CallbackMap, b: CallbackMap, entries: Entries)
    requires IsCurrent(a, entries) && IsCurrent(b, entries) && NulFree(entries)
    ensures a == b
  {
    CurrentWithin(a, b, entries);
    CurrentWithin(b, a, entries);
  }

  lemma CurrentWithin(a: CallbackMap, b: CallbackMap, entries: Entries)
    requires IsCurrent(a, entries) && IsCurrent(b, entries) && NulFree(entries)
    ensures forall k :: k in a ==> k in b && a[k] == b[k]
  {
    forall k | k in a ensures k in b && a[k] == b[k] {
      var p := a[k].pluginId;
      assert KeyOf(Wanted(entries)[p]) in b;
      var q := b[k].pluginId;
      FirstPieceUnique(p, q, NUL, a[k].hostnameHint, b[k].hostnameHint);
    }
  }

  /** The entry has to be published again. */
  predicate Stale(snap: Snapshot, k: string, c: CallbackRoute) {
    k !in snap || snap[k].localPort != c.localPort || snap[k].urlKey != c.urlKey || snap[k].portKey != c.portKey
      || !snap[k].synced
  }

  function StaleKeys(snap: Snapshot, current: CallbackMap): set<string> {
    set k | k in current && Stale(snap, k, current[k])
  }

  function RemovedKeys(snap: Snapshot, current: CallbackMap): set<string> {
    set k | k in snap && k !in current
  }

  /** `keys` lists the set, each element once, in some order. */
  predicate Enumerates(keys: seq<string>, s: set<string>) {
    && (forall i :: 0 <= i < |keys| ==> keys[i] in s)
    && (forall k :: k in s ==> k in keys)
    && (forall i, j :: 0 <= i < j < |keys| ==> keys[i] != keys[j])
  }

  function Pick<T>(m: map<string, T>, keys: seq<string>): (r: seq<T>)
    requires forall i :: 0 <= i < |keys| ==> keys[i] in m
    ensures |r| == |keys| && forall i :: 0 <= i < |keys| ==> r[i] == m[keys[i]]
  {
    seq(|keys|, i requires 0 <= i < |keys| => m[keys[i]])
  }

  datatype Diff = Diff(addedOrUpdated: seq<CallbackRoute>, removed: seq<SnapshotEntry>, untouched: seq<SnapshotEntry>)

  /** The difference of snapshot and discovered callbacks; each part in some order. */
  method DiffSnapshot(snap: Snapshot, routes: seq<CallbackRoute>)
    returns (diff: Diff, current: CallbackMap, ghost staleKeys: seq<string>,
             ghost removedKeys: seq<string>, ghost sameKeys: seq<string>)
    ensures forall k :: k in current ==> current[k] in routes && KeyOf(current[k]) == k
    ensures forall i :: 0 <= i < |routes| ==> KeyOf(routes[i]) in current
    ensures Enumerates(staleKeys, StaleKeys(snap, current)) && diff.addedOrUpdated == Pick(current, staleKeys)
    ensures Enumerates(removedKeys, RemovedKeys(snap, current)) && diff.removed == Pick(snap, removedKeys)
    ensures Enumerates(sameKeys, SameKeys(snap, current)) && diff.untouched == Pick(snap, sameKeys)
  {
    current := ByKey(routes);
    var added, same;
    added, same, staleKeys, sameKeys := CollectStale(snap, current);
    var removed;
    removed, removedKeys := CollectRemoved(snap, current);
    diff := Diff(added, removed, same);
  }

  method ByKey(routes: seq<CallbackRoute>) returns (current: CallbackMap)
    ensures forall k :: k in current ==> current[k] in routes && KeyOf(current[k]) == k
    ensures forall i :: 0 <= i < |routes| ==> KeyOf(routes[i]) in current
  {
    current := map[];
    for i := 0 to |routes|
      invariant forall k :: k in current ==> current[k] in routes && KeyOf(current[k]) == k
      invariant forall j :: 0 <= j < i ==> KeyOf(routes[j]) in current
    {
      current := current[KeyOf(routes[i]) := routes[i]];
    }
  }

  lemma EnumeratesSnoc(keys: seq<string>, s: set<string>, k: string)
    requires Enumerates(keys, s) && k !in s
    ensures Enumerates(keys + [k], s + {k})
  {
    var more := keys + [k];
    assert more[|keys|] == k;
    forall x | x in s + {k} ensures x in more { if x != k { assert x in keys; } }
  }

  lemma PickSnoc<T>(m: map<string, T>, keys: seq<string>, k: string)
    requires k in m && forall i :: 0 <= i < |keys| ==> keys[i] in m
    ensures forall i :: 0 <= i < |keys + [k]| ==> (keys + [k])[i] in m
    ensures Pick(m, keys + [k]) == Pick(m, keys) + [m[k]]
  {}

  /** The keys whose entries need no publication. */
  function SameKeys(snap: Snapshot, current: CallbackMap): set<string> {
    set k | k in current && k in snap && !Stale(snap, k, current[k])
  }

  lemma StepThrough(all: set<string>, todo: set<string>, k: string)
    requires k in todo
    ensures k in all ==> all - (todo - {k}) == (all - todo) + {k} && k !in all - todo
    ensures k !in all ==> all - (todo - {k}) == all - todo
  {}

  method CollectStale(snap: Snapshot, current: CallbackMap)
    returns (added: seq<CallbackRoute>, same: seq<SnapshotEntry>, ghost keys: seq<string>, ghost sameKeys: seq<string>)
    ensures Enumerates(keys, StaleKeys(snap, current)) && added == Pick(current, keys)
    ensures Enumerates(sameKeys, SameKeys(snap, current)) && same == Pick(snap, sameKeys)
  {
    added, same, keys, sameKeys := [], [], [], [];
    var todo := current.Keys;
    ghost var stale, kept := StaleKeys(snap, current), SameKeys(snap, current);
    while todo != {}
      invariant todo <= current.Keys
      invariant Enumerates(keys, stale - todo) && Enumerates(sameKeys, kept - todo)
      invariant added == Pick(current, keys) && same == Pick(snap, sameKeys)
      decreases |todo|
    {
      var k :| k in todo;
      StepThrough(stale, todo, k);
      StepThrough(kept, todo, k);
      if Stale(snap, k, current[k]) {
        assert k in stale && k !in kept;
        EnumeratesSnoc(keys, stale - todo, k);
        PickSnoc(current, keys, k);
        added, keys := added + [current[k]], keys + [k];
      } else {
        assert k in kept && k !in stale;
        EnumeratesSnoc(sameKeys, kept - todo, k);
        PickSnoc(snap, sameKeys, k);
        same, sameKeys := same + [snap[k]], sameKeys + [k];
      }
      todo := todo - {k};
    }
    assert stale - todo == stale && kept - todo == kept;
  }

  method CollectRemoved(snap: Snapshot, current: CallbackMap)
    returns (removed: seq<SnapshotEntry>, ghost keys: seq<string>)
    ensures Enumerates(keys, RemovedKeys(snap, current)) && removed == Pick(snap, keys)
  {
    removed, keys := [], [];
    var todo := snap.Keys;
    ghost var gone := RemovedKeys(snap, current);
    while todo != {}
      invariant todo <= snap.Keys
      invariant Enumerates(keys, gone - todo)
      invariant removed == Pick(snap, keys)
      decreases |todo|
    {
      var k :| k in todo;
      StepThrough(gone, todo, k);
      if k !in current {
        assert k in gone;
        EnumeratesSnoc(keys, gone - todo, k);
        PickSnoc(snap, keys, k);
        removed, keys := removed + [snap[k]], keys + [k];
      }
      todo := todo - {k};
    }
    assert gone - todo == gone;
  }
}
