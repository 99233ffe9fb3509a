/** For each property the program does not have, an input at which it fails. */
module Counterexamples {
  import opened Text
  import opened Words
  import opened State
  import opened Identity
  import opened Users
  import opened Lifecycle
  import Api
  import Backup
  import BackupFirst
  import Examples
  import Removal
  import RouteChanges

  // ----- One user -----

  const ALICE := User("alice", 1000, 18789, Active, true, "")

  const PAUSED := PausedRow(ALICE)

  function OnlyUser(u: User): Db { Db(map[u.username := u], map[], map[], map[]) }

  const BACKUPS := Backup.Settings("/backups", "/key", (s: string) => "")

  const SETUP := Setup(Examples.CONFIG, Client, BACKUPS, true)

  /** Every step of a backup works. */
  const GOOD_BACKUP := Backup.Env(true, true, "k", true, Some("a"), "T", true, true, Some("archive"), true, true, true)

  const GOOD := Env({}, false, 1000, true, Works, {}, Works, Works, GOOD_BACKUP)

  lemma OneUserIsSound(u: User)
    requires u.username == "alice" && u.status != Unset && u.port > 0
    ensures Api.Sound(Examples.CONFIG, OnlyUser(u)) && NoZeroPort(OnlyUser(u)) && HasDomain(Examples.CONFIG)
  {
    Examples.AliceIsValid();
    Examples.OneUserIsHome();
    hide ValidUsername, HasDomain;
  }

  lemma NothingFails(commands: seq<Command>)
    ensures FirstFailing(commands, {}).None?
  {
    if commands != [] { NothingFails(commands[1..]); }
  }

  // ----- Publishers that commit and then fail -----

  const HALF_OPEN := GOOD.(enabling := FailsAfter)

  lemma PausedIsPlanned()
    ensures Planned(Examples.CONFIG, OnlyUser(PAUSED), "alice", HALF_OPEN) == Ok(18789)
  {
    Examples.AliceIsValid();
    Examples.OneUserIsHome();
    hide ValidateUsername, TrimSpace, Zone;
  }

  lemma PausedIsProvisioned()
    ensures TrimSpace("alice") == "alice" && Provisioned(SETUP, OnlyUser(PAUSED), "alice", HALF_OPEN)
  {
    Examples.AliceIsValid();
    ValidUsernameHasNoSeparators("alice");
    PausedIsPlanned();
    NothingFails(Provisioning(1000));
    hide ValidUsername, Planned, FirstFailing, Provisioning, TrimSpace;
  }

  /** Resuming a paused user through a publisher that commits and then fails: the operation fails, and
      the paused user is left with an enabled gateway route. */
  lemma HalfOpenedUser(files: map<string, string>)
    ensures var h := Host(Backup.Vault(OnlyUser(PAUSED), files), []);
      var d := Step(SETUP, h, ActivateUser("alice"), HALF_OPEN);
      && Settled(h.vault.db) && d.err.Some? && d.host.vault != h.vault && !Settled(d.host.vault.db)
  {
    hide Api.Sound, NoZeroPort, Settled, Provisioned, AddOutcome, TrimSpace, OthersAlike, HasDomain,
         OneSettled, Opened, PortTaken;
    var h := Host(Backup.Vault(OnlyUser(PAUSED), files), []);
    OneUserIsSound(PAUSED);
    PausedIsProvisioned();
    PausedIsSettled();
    AddedOneOfThree(SETUP, h, "alice", HALF_OPEN);
    StepKeepsOrder(SETUP, h, ActivateUser("alice"), HALF_OPEN);
  }

  lemma PausedIsSettled()
    ensures Settled(OnlyUser(PAUSED))
  {}

  /** Alice with the gateway row that adding her writes. */
  function Served(): Db
    requires GatewayHostname(Examples.CONFIG, "alice").Some?
  {
    WithRoute(OnlyUser(ALICE), GatewayRow(Examples.CONFIG, ALICE))
  }

  lemma ServedIsSettled()
    ensures GatewayHostname(Examples.CONFIG, "alice").Some?
    ensures Api.Sound(Examples.CONFIG, Served()) && NoZeroPort(Served()) && Settled(Served())
    ensures "alice" in Served().users && Served().users["alice"] == ALICE
  {
    OneUserIsSound(ALICE);
    SlotIsFree(Examples.CONFIG, OnlyUser(ALICE), ALICE);
    ServedRow();
    hide Api.Sound, HasDomain;
  }

  lemma ServedRow()
    requires GatewayHostname(Examples.CONFIG, "alice").Some?
    ensures Settled(Served()) && NoZeroPort(Served())
  {
    hide GatewayHostname, GatewayRouteId;
  }

  const HALF_CLOSED := GOOD.(disabling := FailsAfter)

  /** Pausing an active user through a publisher that commits and then fails: the operation fails, and
      the user stays active without an enabled route. */
  lemma HalfClosedUser(files: map<string, string>)
    ensures GatewayHostname(Examples.CONFIG, "alice").Some?
    ensures var h := Host(Backup.Vault(Served(), files), []);
      var d := Step(SETUP, h, DeactivateUser("alice"), HALF_CLOSED);
      Settled(h.vault.db) && d.err.Some? && !Settled(d.host.vault.db)
  {
    ServedIsSettled();
    NothingFails([StopServices, DisableLinger]);
    hide Api.Sound, NoZeroPort, Settled, OthersAlike, Served, FirstFailing, DeactivateOutcome, GatewayHostname;
    var h := Host(Backup.Vault(Served(), files), []);
    DeactivatedTables(SETUP, h, "alice", HALF_CLOSED);
    StepKeepsOrder(SETUP, h, DeactivateUser("alice"), HALF_CLOSED);
  }

  // ----- The route service and the status -----

  /** Changes that succeed and give a paused user an enabled route. */
  lemma ChangesAgainstThePause()
    ensures Settled(OnlyUser(PAUSED))
    ensures Contradicts(OnlyUser(PAUSED), Api.UpsertPlugin("alice", "cal", "oauth", 19000))
    ensures Contradicts(OnlyUser(PAUSED), Api.UpsertGateway("alice", 0))
  {
    hide Api.Sound, NoZeroPort, Settled, HasDomain, Slug, Api.HintTaken, PluginRouteId, Api.Change;
    OneUserIsSound(PAUSED);
    PausedIsSettled();
    NobodyHoldsHints();
    RouteChanges.ChangeSettlesExactly(Examples.CONFIG, OnlyUser(PAUSED), Api.UpsertPlugin("alice", "cal",
        "oauth", 19000));
    RouteChanges.PluginAnswer(Examples.CONFIG, OnlyUser(PAUSED), "alice", "cal", "oauth", 19000);
    RouteChanges.ChangeSettlesExactly(Examples.CONFIG, OnlyUser(PAUSED), Api.UpsertGateway("alice", 0));
    Api.GatewayUpsertIsAccepted(Examples.CONFIG, OnlyUser(PAUSED), "alice", 0);
  }

  /** One of them opens a plugin route of the paused user, which removal leaves in the tunnel. */
  lemma PausedUserLeavesARoute()
    ensures var c := Api.Change(Examples.CONFIG, OnlyUser(PAUSED), Api.UpsertPlugin("alice", "cal", "oauth", 19000));
      && c.err.None? && Api.Sound(Examples.CONFIG, c.db)
      && Removal.LeftOpen(c.db, "alice", PluginRouteId("alice", Slug("cal"), Slug("oauth")))
  {
    hide Api.Sound, NoZeroPort, Settled, HasDomain, Slug, PluginRouteId, HostnameTaken;
    ChangesAgainstThePause();
    OneUserIsSound(PAUSED);
    Api.ChangeKeepsSound(Examples.CONFIG, OnlyUser(PAUSED), Api.UpsertPlugin("alice", "cal", "oauth", 19000));
  }

  /** Alice paused, with her routes disabled. */
  function Quiet(): Db
    requires GatewayHostname(Examples.CONFIG, "alice").Some? && "alice" in Served().users
  {
    PausedTables(Served(), "alice")
  }

  lemma QuietIsSettled()
    ensures GatewayHostname(Examples.CONFIG, "alice").Some? && "alice" in Served().users
    ensures Api.Sound(Examples.CONFIG, Quiet()) && Settled(Quiet()) && RouteChanges.IsPaused(Quiet(), "alice")
    ensures RouteChanges.HasRoutes(Quiet(), "alice")
  {
    hide Api.Sound, NoZeroPort, Settled, Served, GatewayHostname, PausedTables, OthersAlike, UserSettled,
         RouteChanges.HasRoutes;
    ServedIsSettled();
    PausedHasRoutes();
    ClosedChange(Examples.CONFIG, Served(), "alice");
    ClosedSettles(Examples.CONFIG, Served(), "alice");
    OneUserDecides(Served(), Quiet(), "alice");
    PausedIsSound(Examples.CONFIG, Served(), "alice");
  }

  /** Enabling all routes of a paused user who has one. */
  lemma EnablingAPausedUser()
    ensures GatewayHostname(Examples.CONFIG, "alice").Some? && "alice" in Served().users
    ensures Settled(Quiet()) && Contradicts(Quiet(), Api.SetEnabled("alice", true))
  {
    hide Api.Sound, Settled, Served, Quiet, GatewayHostname, RouteChanges.HasRoutes, SetRoutesEnabled;
    QuietIsSettled();
    RouteChanges.ChangeSettlesExactly(Examples.CONFIG, Quiet(), Api.SetEnabled("alice", true));
  }

  lemma PausedHasRoutes()
    requires GatewayHostname(Examples.CONFIG, "alice").Some? && "alice" in Served().users
    ensures RouteChanges.HasRoutes(Quiet(), "alice")
  {
    var id := GatewayRouteId("alice");
    assert Served().routes[id] == GatewayRow(Examples.CONFIG, ALICE);
    hide GatewayHostname, GatewayRouteId;
    assert PausedTables(Served(), "alice").routes[id].username == "alice";
  }

  /** Changes that succeed and take an active user's gateway away. */
  lemma ChangesAgainstActivity()
    ensures GatewayHostname(Examples.CONFIG, "alice").Some? && Settled(Served())
    ensures Contradicts(Served(), Api.UpsertGateway("alice", 19000))
    ensures Contradicts(Served(), Api.DeleteGateway("alice"))
    ensures Contradicts(Served(), Api.SetEnabled("alice", false))
  {
    hide Api.Sound, NoZeroPort, Settled, Served, HasDomain, GatewayHostname;
    ServedIsSettled();
    ServedHasDomain();
    RouteChanges.ChangeSettlesExactly(Examples.CONFIG, Served(), Api.UpsertGateway("alice", 19000));
    Api.GatewayUpsertIsAccepted(Examples.CONFIG, Served(), "alice", 19000);
    RouteChanges.ChangeSettlesExactly(Examples.CONFIG, Served(), Api.DeleteGateway("alice"));
    RouteChanges.ChangeSettlesExactly(Examples.CONFIG, Served(), Api.SetEnabled("alice", false));
  }

  lemma ServedHasDomain()
    ensures HasDomain(Examples.CONFIG)
  {
    Examples.OneUserIsHome();
    hide HasDomain;
  }

  predicate Contradicts(db: Db, op: Api.Op) {
    Api.Change(Examples.CONFIG, db, op).err.None? && !Settled(Api.Change(Examples.CONFIG, db, op).db)
  }

  lemma NobodyHoldsHints()
    ensures Slug("cal") != "" && Slug("oauth") != ""
    ensures !Api.HintTaken(OnlyUser(PAUSED), "alice", PluginRouteId("alice", Slug("cal"), Slug("oauth")), Slug("oauth"))
  {
    Examples.Slugs();
    hide Slug, PluginRouteId;
  }

  // ----- Backups -----

  const KEYED := Backup.Vault(OnlyUser(ALICE), map["/key" := "k"])

  lemma Prepared(v: Backup.Vault, e: Backup.Env)
    requires v.db.users == OnlyUser(ALICE).users && "/key" in v.files && v.files["/key"] == "k"
    requires e.readKey && e.output == Some("a") && e.mkdir
    ensures Backup.Prepare(BACKUPS, v, "alice", e) == Backup.Keyed(v.files, None)
  {
    OneWord("a");
    OneWord("k");
    TrimKeepsClean("k", IsSpace);
    hide Trim, Fields;
  }

  lemma OneWord(w: string)
    requires IsWord(w)
    ensures Fields(w) == [w]
  {
    FieldsJoin([w]);
  }

  lemma TrimmedAlice()
    ensures TrimSpace("alice") == "alice" && ValidUsername("alice")
    ensures Backup.KeyApart(BACKUPS) && Backup.IsStamp("T")
  {
    Examples.AliceIsValid();
    ValidUsernameHasNoSeparators("alice");
    assert |"/key"| < |"/backups/"|;
    hide ValidUsername, TrimSpace;
  }

  const FAILED_BACKUP := GOOD_BACKUP.(encrypts := false)

  /** A second backup with the same time stamp whose encryption fails: the clean-up takes the first
      archive away and leaves its row. */
  lemma RepeatedStampLosesAnArchive()
    ensures var first := Backup.CreateBackup(BACKUPS, KEYED, "alice", GOOD_BACKUP);
      var second := Backup.CreateBackup(BACKUPS, first.vault, "alice", FAILED_BACKUP);
      && Backup.Archived(BACKUPS, KEYED) && first.result.Ok? && Backup.Archived(BACKUPS, first.vault)
      && second.result.Err? && second.vault.db == first.vault.db && !Backup.Archived(BACKUPS, second.vault)
  {
    TrimmedAlice();
    var first := Backup.CreateBackup(BACKUPS, KEYED, "alice", GOOD_BACKUP);
    Prepared(KEYED, GOOD_BACKUP);
    hide Backup.CreateBackup, TrimSpace, ValidUsername, Backup.KeyApart, Backup.IsStamp, Backup.IdOf, Backup.PathOf;
    Backup.CompletesExactly(BACKUPS, KEYED, "alice", GOOD_BACKUP);
    Backup.SuccessMatchesItsFile(BACKUPS, KEYED, "alice", GOOD_BACKUP);
    Backup.ArchivedIsExact(BACKUPS, KEYED, "alice", GOOD_BACKUP);
    KeyStays(first.vault);
    Prepared(first.vault, FAILED_BACKUP);
    hide Backup.Prepare, Backup.Archived;
    Backup.CompletesExactly(BACKUPS, first.vault, "alice", FAILED_BACKUP);
    Backup.FailureIsExact(BACKUPS, first.vault, "alice", FAILED_BACKUP);
    Backup.ArchivedIsExact(BACKUPS, first.vault, "alice", FAILED_BACKUP);
  }

  lemma KeyStays(v: Backup.Vault)
    requires v == Backup.CreateBackup(BACKUPS, KEYED, "alice", GOOD_BACKUP).vault && TrimSpace("alice") == "alice"
    requires Backup.KeyApart(BACKUPS)
    ensures "/key" in v.files && v.files["/key"] == "k"
  {
    hide Backup.CreateBackup, TrimSpace, Backup.KeyApart;
    Backup.KeyIsReplacedExactly(BACKUPS, KEYED, "alice", GOOD_BACKUP);
  }

  /** A key that is there but cannot be read just then is replaced. */
  lemma UnreadableKeyIsReplaced()
    ensures var e := GOOD_BACKUP.(readKey := false, newKey := "new");
      var after := Backup.CreateBackup(BACKUPS, KEYED, "alice", e).vault;
      "/key" in after.files && after.files["/key"] == "new" != KEYED.files["/key"]
  {
    TrimmedAlice();
    hide Backup.CreateBackup, TrimSpace, Backup.KeyApart, Backup.Prepare;
    Backup.KeyIsReplacedExactly(BACKUPS, KEYED, "alice", GOOD_BACKUP.(readKey := false, newKey := "new"));
    assert |"new"| != |"k"|;
  }

  // ----- Lingering is disabled before the backup -----

  /** The removal of an active user, with every step working: lingering is disabled first, then the
      backup is made. */
  lemma LingerDisabledBeforeBackup() returns (pausing: seq<Event>, backup: seq<Event>, destruction: seq<Event>)
    ensures var h := Host(KEYED, []);
      && RemoveOutcome(SETUP, h, "alice", GOOD).host.trace == pausing + backup + destruction
      && BackupFirst.DisablesLinger(pausing) && backup != []
  {
    var h := Host(KEYED, []);
    TrimmedAlice();
    OneUserIsSound(ALICE);
    NothingFails([StopServices, DisableLinger]);
    hide Api.Sound, TrimSpace, RemoveOutcome, FirstFailing, DeactivateOutcome, BackupFirst.DisablesLinger;
    DeactivatedTables(SETUP, h, "alice", GOOD);
    pausing, backup, destruction := BackupFirst.RemovalIsBackupFirst(SETUP, h, "alice", GOOD);
    assert h.trace + pausing == pausing;
  }
}
