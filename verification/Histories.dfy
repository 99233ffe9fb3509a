/** Whole histories of user operations and route changes, with any failures. */
module Histories {
  import opened Text
  import opened State
  import opened Identity
  import opened Users
  import opened Lifecycle
  import RouteChanges
  import Api
  import Backup

  import Ports
  import Tunnel

  // ----- Archives -----

  lemma ArchivedIgnores(s: Backup.Settings, a: Backup.Vault, b: Backup.Vault)
    requires a.db.backups == b.db.backups && a.files == b.files
    ensures Backup.Archived(s, a) <==> Backup.Archived(s, b)
  {
    hide Backup.RowHolds;
  }

  lemma AllNamesValid(cfg: MaybeConfig, db: Db)
    requires Api.Sound(cfg, db)
    ensures forall u :: u in db.users ==> ValidUsername(u)
  {
    hide ValidUsername;
  }

  /** The attempt can complete, stops before encryption, uses an ID without a row, or leaves an archive
      like the earlier one. */
  predicate BackupIsSafe(s: Backup.Settings, v: Backup.Vault, username: string, e: Backup.Env) {
    || Backup.Completes(v.files, Backup.PathOf(s, username, e.stamp), e)
    || Backup.Prepare(s, v, username, e).err.Some?
    || Backup.IdOf(username, e.stamp) !in v.db.backups
    || Backup.Survives(s, v.files, Backup.PathOf(s, username, e.stamp), e)
  }

  lemma SafetyIgnores(s: Backup.Settings, a: Backup.Vault, b: Backup.Vault, username: string, e: Backup.Env)
    requires a.db.backups == b.db.backups && a.files == b.files && username in a.db.users && username in b.db.users
    ensures BackupIsSafe(s, a, username, e) <==> BackupIsSafe(s, b, username, e)
  {
    hide Backup.Completes, Backup.Survives, Backup.PathOf, Backup.IdOf, Backup.ArchivePath;
  }

  /** Rows stay, and no row is new but that with the ID. */
  ghost predicate RowsElsewhere(a: Db, b: Db, own: string) {
    forall id :: id != own ==> SameBackup(a, b, id)
  }

  predicate SameBackup(a: Db, b: Db, id: string) {
    (id in a.backups <==> id in b.backups) && (id in a.backups ==> a.backups[id] == b.backups[id])
  }

  lemma NewRowElsewhere(db: Db, row: State.Backup)
    ensures RowsElsewhere(db, db.(backups := db.backups[row.id := row]), row.id)
  {}

  lemma NoRowElsewhere(db: Db, own: string)
    ensures RowsElsewhere(db, db, own)
  {}

  lemma ElsewhereIgnores(a: Db, b: Db, c: Db, d: Db, own: string)
    requires RowsElsewhere(a, b, own) && a.backups == c.backups && b.backups == d.backups
    ensures RowsElsewhere(c, d, own)
  {
    forall id | id != own ensures SameBackup(c, d, id) { assert SameBackup(a, b, id); }
  }

  lemma CreatedIsExact(s: Backup.Settings, v: Backup.Vault, username: string, e: Backup.Env)
    requires Backup.Archived(s, v) && Backup.KeyApart(s) && Backup.IsStamp(e.stamp)
    requires TrimSpace(username) == username && forall u :: u in v.db.users ==> ValidUsername(u)
    ensures var c := Backup.CreateBackup(s, v, username, e);
      var id := Backup.IdOf(username, e.stamp);
      && (Backup.Archived(s, c.vault) <==> BackupIsSafe(s, v, username, e)) && RowsElsewhere(v.db, c.vault.db, id)
      && (c.result.Ok? ==> id in c.vault.db.backups && Backup.Archived(s, c.vault))
  {
    hide Backup.CreateBackup, Backup.Archived, TrimSpace, ValidUsername, Backup.IdOf, Backup.PathOf, RowsElsewhere,
         Backup.IsStamp, Backup.KeyApart, Backup.Prepare, Backup.Completes, Backup.Survives, Backup.SameArchives;
    var c := Backup.CreateBackup(s, v, username, e);
    Backup.ArchivedIsExact(s, v, username, e);
    Backup.CompletesExactly(s, v, username, e);
    if c.result.Ok? {
      Backup.SuccessMatchesItsFile(s, v, username, e);
      NewRowElsewhere(v.db, c.result.value);
    } else {
      Backup.FailureIsExact(s, v, username, e);
      NoRowElsewhere(v.db, Backup.IdOf(username, e.stamp));
    }
  }

  /** The backup during removal keeps every row matching its file exactly if it is safe; a completed one
      adds a row that matches its file. */
  lemma BackUpIsExact(m: Setup, h: Host, username: string, e: Backup.Env)
    requires Api.Sound(m.cfg, h.vault.db) && username in h.vault.db.users
    requires Backup.Archived(m.backups, h.vault) && Backup.KeyApart(m.backups) && Backup.IsStamp(e.stamp)
    ensures var d := BackUp(m, h, username, e);
      var id := Backup.IdOf(username, e.stamp);
      && (Backup.Archived(m.backups, d.host.vault) <==> !m.hook || BackupIsSafe(m.backups, h.vault, username, e))
      && RowsElsewhere(h.vault.db, d.host.vault.db, id)
      && (d.err.None? && m.hook ==> id in d.host.vault.db.backups && Backup.Archived(m.backups, d.host.vault))
  {
    OwnNameIsTrimmed(m.cfg, h.vault.db, username);
    AllNamesValid(m.cfg, h.vault.db);
    hide Backup.CreateBackup, Backup.Archived, Api.Sound, TrimSpace, ValidUsername, Backup.IdOf, BackupIsSafe,
         Backup.IsStamp, Backup.KeyApart, RowsElsewhere;
    NoRowElsewhere(h.vault.db, Backup.IdOf(username, e.stamp));
    CreatedIsExact(m.backups, h.vault, username, e);
  }

  /** If the operation is a removal that gets as far as its backup, the backup is safe. */
  predicate KeepsArchives(m: Setup, h: Host, op: Op, e: Env) {
    op.RemoveUser? ==>
      var username := TrimSpace(op.raw);
      username in h.vault.db.users && m.hook && PausedFirst(m, h, username, e).err.None? ==>
        BackupIsSafe(m.backups, h.vault, username, e.backup)
  }

  lemma PausedFirstKeepsBackups(m: Setup, h: Host, username: string, e: Env)
    requires Api.Sound(m.cfg, h.vault.db) && username in h.vault.db.users
    ensures PausedFirst(m, h, username, e).host.vault.db.backups == h.vault.db.backups
  {
    hide Api.Sound, DeactivateOutcome, OneSettled;
    PausedFirstKeepsTables(m, h, username, e);
  }

  /** A removal keeps every row matching its file exactly if its backup is safe, and touches no row but
      that of its own ID; a completed one has added it. */
  lemma RemovalIsExact(m: Setup, h: Host, raw: string, e: Env)
    requires Api.Sound(m.cfg, h.vault.db)
    requires Backup.Archived(m.backups, h.vault) && Backup.KeyApart(m.backups) && Backup.IsStamp(e.backup.stamp)
    ensures var d := RemoveOutcome(m, h, raw, e);
      var id := Backup.IdOf(TrimSpace(raw), e.backup.stamp);
      && (Backup.Archived(m.backups, d.host.vault) <==> KeepsArchives(m, h, RemoveUser(raw), e))
      && RowsElsewhere(h.vault.db, d.host.vault.db, id)
      && (d.err.None? && m.hook ==> id in d.host.vault.db.backups && Backup.Archived(m.backups, d.host.vault))
  {
    hide Api.Sound, TrimSpace, PausedFirst, BackUp, Destroy, Backup.Archived, Backup.KeyApart, OneSettled,
         Backup.IdOf, Backup.IsStamp, BackupIsSafe, OthersAlike, HalfClosed, RowsElsewhere;
    var username, id := TrimSpace(raw), Backup.IdOf(TrimSpace(raw), e.backup.stamp);
    RemovalInStages(m, h, raw, e);
    NoRowElsewhere(h.vault.db, id);
    if username in h.vault.db.users {
      PausedFirstKeepsTables(m, h, username, e);
      PausedFirstKeepsBackups(m, h, username, e);
      var paused := PausedFirst(m, h, username, e);
      ArchivedIgnores(m.backups, h.vault, paused.host.vault);
      ElsewhereIgnores(h.vault.db, h.vault.db, h.vault.db, paused.host.vault.db, id);
      if paused.err.None? {
        SafetyIgnores(m.backups, h.vault, paused.host.vault, username, e.backup);
        BackUpIsExact(m, paused.host, username, e.backup);
        BackUpKeepsTables(m, paused.host, username, e.backup);
        var saved := BackUp(m, paused.host, username, e.backup);
        ElsewhereIgnores(paused.host.vault.db, saved.host.vault.db, h.vault.db, saved.host.vault.db, id);
        if saved.err.None? {
          DestroyKeepsTables(m, saved.host, username, e);
          var gone := Destroy(m, saved.host, username, e).host.vault;
          ArchivedIgnores(m.backups, saved.host.vault, gone);
          ElsewhereIgnores(h.vault.db, saved.host.vault.db, h.vault.db, gone.db, id);
        }
      }
    }
  }

  lemma RemovalInStages(m: Setup, h: Host, raw: string, e: Env)
    ensures var username, d := TrimSpace(raw), RemoveOutcome(m, h, raw, e);
      if username !in h.vault.db.users then d.err.Some? && d.host == h
      else
        var paused := PausedFirst(m, h, username, e);
        if paused.err.Some? then d == paused
        else
          var saved := BackUp(m, paused.host, username, e.backup);
          d == if saved.err.Some? then saved else Destroy(m, saved.host, username, e)
  {
    hide TrimSpace, DeactivateOutcome, BackUp, Destroy;
  }

  /** A completed removal leaves neither the user nor a route of the user, touches no other user,
      frees the user's port, and leaves a backup row whose file is there with the recorded size and digest. */
  lemma RemovalLeavesABackup(m: Setup, h: Host, raw: string, e: Env)
    requires Api.Sound(m.cfg, h.vault.db) && NoZeroPort(h.vault.db) && m.hook && RemoveOutcome(m, h, raw, e).err.None?
    requires Backup.Archived(m.backups, h.vault) && Backup.KeyApart(m.backups) && Backup.IsStamp(e.backup.stamp)
    ensures var username, after := TrimSpace(raw), RemoveOutcome(m, h, raw, e).host.vault;
      var id := Backup.IdOf(username, e.backup.stamp);
      && username !in after.db.users
      && (forall r :: r in after.db.routes ==> after.db.routes[r].username != username)
      && OthersAlike(h.vault.db, after.db, username)
      && username in h.vault.db.users
      && (forall v :: v in after.db.users ==> after.db.users[v].port != h.vault.db.users[username].port)
      && id in after.db.backups && Backup.RowHolds(m.backups, after.files, after.db.backups[id])
  {
    hide TrimSpace, OthersAlike, ValidUsername, WellNamed, OneSettled, HalfClosed, RemoveOutcome, KeepsArchives;
    RemoveKeepsTables(m, h, raw, e);
    RemovalIsExact(m, h, raw, e);
  }

  /** The ID of the backup an operation may make. */
  function OwnId(op: Op, e: Env): Option<string> {
    if op.RemoveUser? then Some(Backup.IdOf(TrimSpace(op.raw), e.backup.stamp)) else None
  }

  ghost predicate RowsKept(a: Db, b: Db, own: Option<string>) {
    forall id :: own != Some(id) ==> SameBackup(a, b, id)
  }

  /** Only removal makes backups. */
  lemma NoBackupMade(m: Setup, h: Host, op: Op, e: Env)
    requires Api.Sound(m.cfg, h.vault.db) && NoZeroPort(h.vault.db) && !op.RemoveUser?
    ensures var v := Step(m, h, op, e).host.vault; v.files == h.vault.files && v.db.backups == h.vault.db.backups
  {
    hide Api.Sound, NoZeroPort, AddOutcome, DeactivateOutcome, TrimSpace, Provisioned, Planned, OneSettled, Stopped;
    match op
    case AddUser(raw) => AddedOneOfThree(m, h, raw, e);
    case ActivateUser(u) =>
      if u in h.vault.db.users { AddedOneOfThree(m, h, h.vault.db.users[u].username, e); }
    case DeactivateUser(u) => DeactivateKeepsTables(m, h, u, e);
  }

  /** An operation keeps every backup row matching its file exactly if the backup it makes, if any, is
      safe; it touches no row but that of its own backup. */
  lemma StepKeepsArchives(m: Setup, h: Host, op: Op, e: Env)
    requires Api.Sound(m.cfg, h.vault.db) && NoZeroPort(h.vault.db)
    requires Backup.Archived(m.backups, h.vault) && Backup.KeyApart(m.backups) && Backup.IsStamp(e.backup.stamp)
    ensures var v := Step(m, h, op, e).host.vault;
      && (Backup.Archived(m.backups, v) <==> KeepsArchives(m, h, op, e)) && RowsKept(h.vault.db, v.db, OwnId(op, e))
  {
    hide Api.Sound, NoZeroPort, Backup.Archived, Backup.KeyApart, Backup.IsStamp, RemoveOutcome, TrimSpace,
         BackupIsSafe, PausedFirst, AddOutcome, ActivateOutcome, DeactivateOutcome, Backup.IdOf, SameBackup;
    if op.RemoveUser? {
      RemovalIsExact(m, h, op.raw, e);
    } else {
      NoBackupMade(m, h, op, e);
      ArchivedIgnores(m.backups, h.vault, Step(m, h, op, e).host.vault);
      SameBackups(h.vault.db, Step(m, h, op, e).host.vault.db);
    }
  }

  lemma SameBackups(a: Db, b: Db)
    requires a.backups == b.backups
    ensures forall id :: SameBackup(a, b, id)
  {}

  // ----- Tables and ports: any history at all -----

  /** Sound tables whose ports are on rungs below `n`. */
  predicate Kept(m: Setup, db: Db, n: nat) { Api.Sound(m.cfg, db) && Ladder(m.cfg, db, n) }

  lemma ChangeKeepsKept(m: Setup, db: Db, change: Api.Op, n: nat)
    requires Kept(m, db, n)
    ensures var next := Api.Change(m.cfg, db, change).db;
      Kept(m, next, Max(n, |next.users|)) && SamePorts(db, next)
  {
    hide Api.Sound, Ladder, Api.Change;
    Api.ChangeKeepsSound(m.cfg, db, change);
    RouteChanges.ChangeKeepsUsers(m.cfg, db, change);
    KeptLadder(m.cfg, db, Api.Change(m.cfg, db, change).db, n);
  }

  lemma DoKeepsKept(m: Setup, h: Host, w: Work, n: nat)
    requires Kept(m, h.vault.db, n)
    ensures var next := Do(m, h, w).vault.db;
      Kept(m, next, Max(n, |next.users|)) && SamePorts(h.vault.db, next)
  {
    hide Api.Sound, Ladder, Api.Change, Step, OthersAlike, OneSettled, Settled, SamePorts;
    match w
    case ByUser(op, e) =>
      LadderMeansPorts(m.cfg, h.vault.db, n);
      StepKeepsOrder(m, h, op, e);
      StepKeepsLadder(m, h, op, e, n);
    case ByRoute(change) => ChangeKeepsKept(m, h.vault.db, change, n);
  }

  /** The largest number of users at any time. */
  function Peak(m: Setup, h: Host, history: seq<Work>): nat
    decreases |history|
  {
    if history == [] then |h.vault.db.users|
    else Max(|h.vault.db.users|, Peak(m, Do(m, h, history[0]), history[1..]))
  }

  lemma PeakStarts(m: Setup, h: Host, history: seq<Work>)
    ensures Peak(m, h, history) >= |h.vault.db.users|
  {}

  lemma MorePeak(m: Setup, db: Db, n: nat, more: nat)
    requires Kept(m, db, n) && n <= more
    ensures Kept(m, db, more)
  {
    hide Api.Sound;
    forall u | u in db.users ensures OnRung(Ports.Settings(m.cfg), db.users[u].port, more) {
      RungStays(Ports.Settings(m.cfg), db.users[u].port, n, more);
    }
  }

  /** Over every history, whatever fails and whoever is unsettled, the tables stay sound and ports
      stay on rungs below the largest number of users so far. */
  lemma {:induction false} RunKeepsKept(m: Setup, h: Host, history: seq<Work>, n: nat)
    requires Kept(m, h.vault.db, n)
    ensures Kept(m, Run(m, h, history).vault.db, Max(n, Peak(m, h, history)))
    decreases |history|
  {
    hide Do, Kept;
    if history == [] {
      MorePeak(m, h.vault.db, n, Max(n, |h.vault.db.users|));
    } else {
      var next := Do(m, h, history[0]);
      var more := Max(n, |next.vault.db.users|);
      DoKeepsKept(m, h, history[0], n);
      RunKeepsKept(m, next, history[1..], more);
      PeakStarts(m, next, history[1..]);
      MorePeak(m, Run(m, h, history).vault.db, Max(more, Peak(m, next, history[1..])), Max(n, Peak(m, h, history)));
    }
  }

  /** The user is there before and after every piece of work. */
  predicate Present(m: Setup, h: Host, history: seq<Work>, username: string)
    decreases |history|
  {
    && username in h.vault.db.users
    && (history != [] ==> Present(m, Do(m, h, history[0]), history[1..], username))
  }

  /** A user keeps its port until it is removed, whatever fails. */
  lemma {:induction false} PortsNeverChange(m: Setup, h: Host, history: seq<Work>, n: nat, username: string)
    requires Kept(m, h.vault.db, n) && Present(m, h, history, username)
    ensures username in Run(m, h, history).vault.db.users
    ensures Run(m, h, history).vault.db.users[username].port == h.vault.db.users[username].port
    decreases |history|
  {
    hide Do, Kept;
    if history != [] {
      var next := Do(m, h, history[0]);
      DoKeepsKept(m, h, history[0], n);
      assert username in next.vault.db.users;
      PortsNeverChange(m, next, history[1..], Max(n, |next.vault.db.users|), username);
    }
  }

  // ----- Archives: exactly the safe histories -----

  predicate AllStamped(history: seq<Work>) {
    forall i :: 0 <= i < |history| && history[i].ByUser? ==> Backup.IsStamp(history[i].env.backup.stamp)
  }

  predicate WorkKeepsArchives(m: Setup, h: Host, w: Work) { w.ByUser? ==> KeepsArchives(m, h, w.op, w.env) }

  /** Every backup that is made is safe where it is made. */
  predicate AllSafe(m: Setup, h: Host, history: seq<Work>)
    decreases |history|
  {
    history != [] ==> WorkKeepsArchives(m, h, history[0]) && AllSafe(m, Do(m, h, history[0]), history[1..])
  }

  /** At every moment every backup row matches its file. */
  predicate AlwaysArchived(m: Setup, h: Host, history: seq<Work>)
    decreases |history|
  {
    && Backup.Archived(m.backups, h.vault)
    && (history != [] ==> AlwaysArchived(m, Do(m, h, history[0]), history[1..]))
  }

  function OwnIdOf(w: Work): Option<string> { if w.ByUser? then OwnId(w.op, w.env) else None }

  lemma DoKeepsArchives(m: Setup, h: Host, w: Work, n: nat)
    requires Kept(m, h.vault.db, n) && (w.ByUser? ==> Backup.IsStamp(w.env.backup.stamp))
    requires Backup.Archived(m.backups, h.vault) && Backup.KeyApart(m.backups)
    ensures var next := Do(m, h, w).vault;
      && (Backup.Archived(m.backups, next) <==> WorkKeepsArchives(m, h, w)) && RowsKept(h.vault.db, next.db, OwnIdOf(w))
  {
    LadderMeansPorts(m.cfg, h.vault.db, n);
    hide Api.Sound, Backup.Archived, Backup.KeyApart, Ladder, Step, NoZeroPort, Backup.IsStamp, KeepsArchives,
         Api.Change, SameBackup, OwnId;
    match w
    case ByUser(op, e) => StepKeepsArchives(m, h, op, e);
    case ByRoute(change) =>
      RouteChanges.ChangeKeepsUsers(m.cfg, h.vault.db, change);
      ArchivedIgnores(m.backups, h.vault, Do(m, h, w).vault);
      SameBackups(h.vault.db, Do(m, h, w).vault.db);
  }

  /** Over every history, whatever fails, every backup row matches its file at every moment exactly if
      every backup is safe where it is made. */
  lemma {:induction false} RunKeepsArchives(m: Setup, h: Host, history: seq<Work>, n: nat)
    requires Kept(m, h.vault.db, n) && AllStamped(history)
    requires Backup.Archived(m.backups, h.vault) && Backup.KeyApart(m.backups)
    ensures AlwaysArchived(m, h, history) <==> AllSafe(m, h, history)
    decreases |history|
  {
    hide Do, Kept, Backup.Archived, Backup.KeyApart, WorkKeepsArchives, Backup.IsStamp, RowsKept;
    if history != [] {
      var next := Do(m, h, history[0]);
      DoKeepsKept(m, h, history[0], n);
      DoKeepsArchives(m, h, history[0], n);
      forall i | 0 <= i < |history[1..]| ensures history[1..][i] == history[i + 1] {}
      if Backup.Archived(m.backups, next.vault) {
        RunKeepsArchives(m, next, history[1..], Max(n, |next.vault.db.users|));
      }
    }
  }

  lemma {:induction false} ArchivedAtTheEnd(m: Setup, h: Host, history: seq<Work>)
    requires AlwaysArchived(m, h, history)
    ensures Backup.Archived(m.backups, Run(m, h, history).vault)
    decreases |history|
  {
    hide Backup.Archived, Do;
    if history != [] { ArchivedAtTheEnd(m, Do(m, h, history[0]), history[1..]); }
  }

  /** No two removals make a backup of the same user in the same second, nor one that is recorded. */
  predicate DistinctBackups(db: Db, history: seq<Work>) {
    && (forall i :: 0 <= i < |history| && OwnIdOf(history[i]).Some? ==> OwnIdOf(history[i]).value !in db.backups)
    && (forall i, j :: 0 <= i < j < |history| && OwnIdOf(history[i]).Some? ==>
          OwnIdOf(history[i]) != OwnIdOf(history[j]))
  }

  lemma DistinctTail(db: Db, next: Db, history: seq<Work>)
    requires history != [] && DistinctBackups(db, history) && RowsKept(db, next, OwnIdOf(history[0]))
    ensures DistinctBackups(next, history[1..])
  {
    hide OwnIdOf;
    var rest := history[1..];
    assert forall i :: 0 <= i < |rest| ==> rest[i] == history[i + 1];
    forall i | 0 <= i < |rest| && OwnIdOf(rest[i]).Some? ensures OwnIdOf(rest[i]).value !in next.backups {
      var id := OwnIdOf(history[i + 1]).value;
      if OwnIdOf(history[0]).Some? { assert OwnIdOf(history[0]) != OwnIdOf(history[i + 1]); }
      assert SameBackup(db, next, id);
    }
  }

  lemma NewIdIsSafe(m: Setup, h: Host, w: Work)
    requires OwnIdOf(w).Some? ==> OwnIdOf(w).value !in h.vault.db.backups
    ensures WorkKeepsArchives(m, h, w)
  {
    hide TrimSpace, PausedFirst, Backup.IdOf, Backup.Completes, Backup.Survives, Backup.PathOf, Backup.Prepare;
  }

  /** That is the case when no two removals of the same user share a second. */
  lemma {:induction false} DistinctBackupsAreSafe(m: Setup, h: Host, history: seq<Work>, n: nat)
    requires Kept(m, h.vault.db, n) && AllStamped(history) && DistinctBackups(h.vault.db, history)
    requires Backup.Archived(m.backups, h.vault) && Backup.KeyApart(m.backups)
    ensures AllSafe(m, h, history)
    decreases |history|
  {
    if history != [] {
      var next := Do(m, h, history[0]);
      NewIdIsSafe(m, h, history[0]);
      hide Do, Kept, Backup.Archived, Backup.KeyApart, WorkKeepsArchives, Backup.IsStamp, RowsKept;
      DoKeepsKept(m, h, history[0], n);
      DoKeepsArchives(m, h, history[0], n);
      DistinctTail(h.vault.db, next.vault.db, history);
      forall i | 0 <= i < |history[1..]| ensures history[1..][i] == history[i + 1] {}
      hide DistinctBackups;
      DistinctBackupsAreSafe(m, next, history[1..], Max(n, |next.vault.db.users|));
    }
  }

  // ----- Paused and active users: exactly the fitting histories -----

  /** The work neither stops half-way nor contradicts the status of its user. */
  predicate Fits(m: Setup, db: Db, w: Work) {
    match w
    case ByUser(op, e) => !Halfway(m, db, op, e)
    case ByRoute(change) => RouteChanges.Suits(m.cfg, db, change)
  }

  predicate AllFit(m: Setup, h: Host, history: seq<Work>)
    decreases |history|
  {
    history != [] ==> Fits(m, h.vault.db, history[0]) && AllFit(m, Do(m, h, history[0]), history[1..])
  }

  /** At every moment a paused user has no enabled route and an active user an enabled gateway route
      with the user's port. */
  predicate AlwaysSettled(m: Setup, h: Host, history: seq<Work>)
    decreases |history|
  {
    && Settled(h.vault.db)
    && (history != [] ==> AlwaysSettled(m, Do(m, h, history[0]), history[1..]))
  }

  lemma DoSettlesExactly(m: Setup, h: Host, w: Work, n: nat)
    requires Kept(m, h.vault.db, n) && Settled(h.vault.db)
    ensures Settled(Do(m, h, w).vault.db) <==> Fits(m, h.vault.db, w)
  {
    hide Api.Sound, Ladder, Settled, Step, Api.Change, Halfway, RouteChanges.Suits, OthersAlike, OneSettled;
    LadderMeansPorts(m.cfg, h.vault.db, n);
    match w
    case ByUser(op, e) => StepKeepsOrder(m, h, op, e);
    case ByRoute(change) => RouteChanges.ChangeSettlesExactly(m.cfg, h.vault.db, change);
  }

  /** Everybody is settled at every moment of a history exactly if every piece of work fits. */
  lemma {:induction false} SettledExactly(m: Setup, h: Host, history: seq<Work>, n: nat)
    requires Kept(m, h.vault.db, n) && Settled(h.vault.db)
    ensures AlwaysSettled(m, h, history) <==> AllFit(m, h, history)
    decreases |history|
  {
    hide Do, Kept, Settled, Fits;
    if history != [] {
      var next := Do(m, h, history[0]);
      DoKeepsKept(m, h, history[0], n);
      DoSettlesExactly(m, h, history[0], n);
      if Settled(next.vault.db) { SettledExactly(m, next, history[1..], Max(n, |next.vault.db.users|)); }
    }
  }

  lemma {:induction false} SettledAtTheEnd(m: Setup, h: Host, history: seq<Work>)
    requires AlwaysSettled(m, h, history)
    ensures Settled(Run(m, h, history).vault.db)
    decreases |history|
  {
    hide Settled, Do;
    if history != [] { SettledAtTheEnd(m, Do(m, h, history[0]), history[1..]); }
  }

  /** User operations only, with a publisher that never commits and then fails. */
  predicate Reliable(history: seq<Work>) {
    forall i :: 0 <= i < |history| ==> IsReliable(history[i])
  }

  predicate IsReliable(w: Work) { w.ByUser? && w.env.enabling != FailsAfter && w.env.disabling != FailsAfter }

  lemma {:induction false} ReliableFits(m: Setup, h: Host, history: seq<Work>)
    requires Reliable(history)
    ensures AllFit(m, h, history)
    decreases |history|
  {
    hide Do;
    if history != [] {
      assert IsReliable(history[0]);
      forall i | 0 <= i < |history[1..]| ensures IsReliable(history[1..][i]) {
        assert history[1..][i] == history[i + 1];
      }
      ReliableFits(m, Do(m, h, history[0]), history[1..]);
    }
  }

  // ----- From the empty store -----

  lemma EmptyIsKept(m: Setup)
    ensures Kept(m, EMPTY, 0) && Settled(EMPTY)
  {}

  lemma ArchivesFromEmpty(m: Setup, start: Host, history: seq<Work>)
    requires start.vault.db == EMPTY && Backup.KeyApart(m.backups) && AllStamped(history)
    ensures AlwaysArchived(m, start, history) <==> AllSafe(m, start, history)
    ensures DistinctBackups(EMPTY, history) || AllSafe(m, start, history) ==>
      Backup.Archived(m.backups, Run(m, start, history).vault)
  {
    EmptyIsKept(m);
    assert Backup.Archived(m.backups, start.vault);
    hide Run, Do, Kept, Backup.Archived, AllStamped, DistinctBackups, AllSafe, AlwaysArchived, Backup.KeyApart, Settled;
    RunKeepsArchives(m, start, history, 0);
    if DistinctBackups(EMPTY, history) { DistinctBackupsAreSafe(m, start, history, 0); }
    if AlwaysArchived(m, start, history) { ArchivedAtTheEnd(m, start, history); }
  }

  /** What holds after any history that starts with an empty store, and under which condition: sound
      tables, rungs below the peak number of users and disjoint windows of 20 ports always; archives
      matching their rows exactly if every backup is safe, as all are when no two removals of a user
      share a second; settled users exactly if all work fits, as all work does when the publisher never
      commits and then fails. */
  lemma HistoriesFromEmpty(m: Setup, files: map<string, string>, history: seq<Work>)
    ensures var start := Host(Backup.Vault(EMPTY, files), []);
      var v, n := Run(m, start, history).vault, Peak(m, start, history);
      && Integrity(v.db) && WellNamed(m.cfg, v.db)
      && (forall u :: u in v.db.users ==> OnRung(Ports.Settings(m.cfg), v.db.users[u].port, n))
      && (forall a, b :: a in v.db.users && b in v.db.users && a != b ==> Apart(v.db, a, b))
      && (Backup.KeyApart(m.backups) && AllStamped(history) ==>
            && (AlwaysArchived(m, start, history) <==> AllSafe(m, start, history))
            && (DistinctBackups(EMPTY, history) || AllSafe(m, start, history) ==> Backup.Archived(m.backups, v)))
      && (AlwaysSettled(m, start, history) <==> AllFit(m, start, history))
      && (Reliable(history) || AllFit(m, start, history) ==> Settled(v.db))
  {
    var start := Host(Backup.Vault(EMPTY, files), []);
    EmptyIsKept(m);
    RunKeepsKept(m, start, history, 0);
    SettledExactly(m, start, history, 0);
    if Reliable(history) { ReliableFits(m, start, history); }
    if AlwaysSettled(m, start, history) { SettledAtTheEnd(m, start, history); }
    hide Integrity, WellNamed, Settled, Run, Peak, OnRung, Reliable, AllFit, AlwaysSettled, Do, Kept, Backup.Archived,
         AllStamped, DistinctBackups, AllSafe, AlwaysArchived, Backup.KeyApart;
    if Backup.KeyApart(m.backups) && AllStamped(history) { ArchivesFromEmpty(m, start, history); }
    var v := Run(m, start, history).vault;
    forall a, b | a in v.db.users && b in v.db.users && a != b ensures Apart(v.db, a, b) {
      WindowsAreDisjoint(m.cfg, v.db, Max(0, Peak(m, start, history)), a, b);
    }
  }

  predicate Apart(db: Db, a: string, b: string)
    requires a in db.users && b in db.users
  {
    db.users[a].port + 20 <= db.users[b].port || db.users[b].port + 20 <= db.users[a].port
  }

  /** After any history of both kinds of work, and whatever the tunnel and its file look like, the next
      route operation that returns no error brings store, file and tunnel into agreement. */
  lemma AgreementAfterAnyWork(m: Setup, h: Host, history: seq<Work>, n: nat, sv: Api.Service, tunnel: Tunnel.Host,
                              op: Api.Op, env: Api.Env)
    requires Kept(m, h.vault.db, n) && sv.cfg == m.cfg && sv.publisher.Some? && sv.publisher.value.cfg == sv.cfg
    requires Api.OneLineSettings(sv.publisher.value) && env.backupPath != sv.publisher.value.path
    requires Api.Step(sv, Api.System(Run(m, h, history).vault.db, tunnel), op, env).err.None?
    ensures Api.Published(sv, Api.Step(sv, Api.System(Run(m, h, history).vault.db, tunnel), op, env).sys)
  {
    hide Api.Sound, Run, Api.Step, Api.Published, Peak, Ladder;
    RunKeepsKept(m, h, history, n);
    Api.SuccessMeansPublished(sv, Api.System(Run(m, h, history).vault.db, tunnel), op, env);
  }
}
