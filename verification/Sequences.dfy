/** What the user operations promise about their steps: each row is saved or deleted only after exactly the
    steps that earn it, and an operation completes exactly if none of its steps fails. */
module Sequences {
  import opened Text
  import opened State
  import opened Identity
  import opened Users
  import BackupFirst
  import Lifecycle
  import Histories
  import Api
  import Backup
  import Ports

  // ----- Traces -----

  /** Directly before the position come these effects, all of the same user. */
  predicate Follows(trace: seq<Event>, p: nat, steps: seq<Effect>)
    requires p < |trace|
  {
    |steps| <= p && forall i :: 0 <= i < |steps| ==> trace[p - |steps| + i] == Event(trace[p].username, steps[i])
  }

  /** The account, its session and runtime, its files and units, the services, and the readiness checks.
      The number of the user is looked up unless the store knows it. */
  function AddingSteps(knowsUid: bool): seq<Effect> {
    [Ran(UserAdd, true), Ran(EnableLinger, true)] + (if knowsUid then [] else [Ran(LookupUid, true)])
    + [Ran(StartUserManager, true), Ran(InstallRuntime, true), Ran(WriteCli, true), Ran(WriteGatewayStart, true),
       Ran(WriteOnboardEnv, true), Ran(Onboard, true), Ran(WriteGatewayUnit, true), Ran(WriteWatcherUnit, true),
       Ran(ProtectDir, true), Ran(ProtectConfig, true), Ran(DaemonReload, true), Ran(EnableGateway, true),
       Ran(EnableWatcher, true), Ran(CheckCli, true), Ran(CheckStateDir, true), Ran(CheckConfig, true),
       Ran(CheckOverlayDir, true), Ran(CheckGatewayUnit, true), Ran(CheckWatcherUnit, true),
       Ran(GatewayIsActive, true), Ran(WatcherIsActive, true)]
  }

  /** The steps of the same operation that must come directly before an effect on the store. */
  predicate Earned(trace: seq<Event>, p: nat)
    requires p < |trace|
  {
    match trace[p].effect
    case RowSaved(Paused) => Follows(trace, p, [Ran(StopServices, true), Ran(DisableLinger, true), RoutesClosed(true)])
    case RowSaved(_) => Follows(trace, p, AddingSteps(true)) || Follows(trace, p, AddingSteps(false))
    case RoutesOpened(_) => Follows(trace, p, [RowSaved(Active)])
    case RowRestored => Follows(trace, p, [RowSaved(Active), RoutesOpened(false)])
    case RowWithdrawn => Follows(trace, p, [RowSaved(Active), RoutesOpened(false)])
    case RoutesClosed(_) => Follows(trace, p, [Ran(StopServices, true), Ran(DisableLinger, true)])
    case RowDeleted =>
      Follows(trace, p, [RoutesDropped(true), Ran(Uninstall, true), Ran(DisableLinger, true), Ran(UserDel, true)])
    case _ => true
  }

  predicate AllEarned(trace: seq<Event>) { forall p :: 0 <= p < |trace| ==> Earned(trace, p) }

  lemma FollowsLater(trace: seq<Event>, more: seq<Event>, p: nat, steps: seq<Effect>)
    requires p < |more| && Follows(more, p, steps)
    ensures Follows(trace + more, |trace| + p, steps)
  {}

  lemma FollowsStill(trace: seq<Event>, more: seq<Event>, p: nat, steps: seq<Effect>)
    requires p < |trace| && Follows(trace, p, steps)
    ensures Follows(trace + more, p, steps)
  {}

  lemma EarnedTogether(trace: seq<Event>, more: seq<Event>)
    requires AllEarned(trace) && AllEarned(more)
    ensures AllEarned(trace + more)
  {
    hide Follows, AddingSteps;
    var all := trace + more;
    forall p, steps | 0 <= p < |trace| && Follows(trace, p, steps) ensures Follows(all, p, steps) {
      FollowsStill(trace, more, p, steps);
    }
    forall p, steps | 0 <= p < |more| && Follows(more, p, steps) ensures Follows(all, |trace| + p, steps) {
      FollowsLater(trace, more, p, steps);
    }
    forall p | 0 <= p < |all| ensures Earned(all, p) {
      if p < |trace| { assert Earned(trace, p) && all[p] == trace[p]; }
      else { assert Earned(more, p - |trace|) && all[p] == more[p - |trace|]; }
    }
  }

  /** Commands need nothing before them. */
  lemma CommandsAreEarned(username: string, commands: seq<Command>, failing: set<Command>)
    ensures AllEarned(CommandTrace(username, commands, failing))
  {
    BackupFirst.CommandsAppend(username, commands, failing);
    hide CommandTrace, Follows, AddingSteps;
  }

  // ----- What each operation appends -----

  lemma ProvisioningSteps(uid: int)
    ensures |Provisioning(uid)| == |AddingSteps(uid != 0)|
    ensures forall i :: 0 <= i < |Provisioning(uid)| ==> AddingSteps(uid != 0)[i] == Ran(Provisioning(uid)[i], true)
  {}

  /** An operation that opens a user ends like this. */
  function OpenedUp(username: string): seq<Event> {
    [Event(username, RowSaved(Active)), Event(username, RoutesOpened(true))]
  }

  /** What opening appends: nothing, or the row and the answer of the publisher, undone if it is no. */
  predicate IsOpening(username: string, opening: seq<Event>) {
    var saved := Event(username, RowSaved(Active));
    || opening == [] || opening == [saved, Event(username, RoutesOpened(true))]
    || opening == [saved, Event(username, RoutesOpened(false)), Event(username, RowRestored)]
    || opening == [saved, Event(username, RoutesOpened(false)), Event(username, RowWithdrawn)]
  }

  lemma OpenAppends(m: Setup, h: Host, row: User, fault: CallFault) returns (opening: seq<Event>)
    ensures Open(m, h, row, fault).host.trace == h.trace + opening && IsOpening(row.username, opening)
    ensures Open(m, h, row, fault).err.None? ==> opening == OpenedUp(row.username)
  {
    hide PutUser, EnableUserGateway, DeleteUser;
    opening := Open(m, h, row, fault).host.trace[|h.trace|..];
  }

  lemma OpeningIsEarned(username: string, ran: seq<Event>, uid: int, opening: seq<Event>)
    requires AllEarned(ran) && |ran| == |Provisioning(uid)| && IsOpening(username, opening)
    requires forall i :: 0 <= i < |ran| ==> ran[i] == Event(username, Ran(Provisioning(uid)[i], true))
    ensures AllEarned(ran + opening)
  {
    ProvisioningSteps(uid);
    hide AddingSteps, Provisioning, Earned, Follows;
    var all, steps := ran + opening, AddingSteps(uid != 0);
    forall p | 0 <= p < |all| ensures Earned(all, p) {
      if p < |ran| {
        StillEarned(ran, opening, p);
      } else if p == |ran| {
        SavingIsEarned(username, ran, uid, opening);
      } else {
        AnswerIsEarned(username, ran, opening, p);
      }
    }
  }

  lemma StillEarned(trace: seq<Event>, more: seq<Event>, p: nat)
    requires p < |trace| && Earned(trace, p)
    ensures Earned(trace + more, p)
  {
    hide Follows, AddingSteps;
    assert (trace + more)[p] == trace[p];
    forall steps | Follows(trace, p, steps) ensures Follows(trace + more, p, steps) {
      FollowsStill(trace, more, p, steps);
    }
  }

  lemma SavingIsEarned(username: string, ran: seq<Event>, uid: int, opening: seq<Event>)
    requires |ran| == |AddingSteps(uid != 0)| && IsOpening(username, opening) && opening != []
    requires forall i :: 0 <= i < |ran| ==> ran[i] == Event(username, AddingSteps(uid != 0)[i])
    ensures Earned(ran + opening, |ran|)
  {
    hide AddingSteps;
    assert (ran + opening)[|ran|] == Event(username, RowSaved(Active));
    assert Follows(ran + opening, |ran|, AddingSteps(uid != 0));
  }

  lemma AnswerIsEarned(username: string, ran: seq<Event>, opening: seq<Event>, p: nat)
    requires IsOpening(username, opening) && |ran| < p < |ran + opening|
    ensures Earned(ran + opening, p)
  {
    hide AddingSteps;
    assert (ran + opening)[|ran|] == Event(username, RowSaved(Active));
    assert (ran + opening)[p] == opening[p - |ran|];
  }

  lemma NothingIsEarned()
    ensures AllEarned([])
  {}

  lemma AddIsEarned(m: Setup, h: Host, raw: string, e: Env) returns (more: seq<Event>)
    ensures AddOutcome(m, h, raw, e).host.trace == h.trace + more && AllEarned(more)
    ensures AddOutcome(m, h, raw, e).err.None? ==>
      |more| >= 2 && more[|more| - 2..] == OpenedUp(TrimSpace(raw))
  {
    hide TrimSpace, Planned, Provisioning, CommandTrace, Open, AllEarned, KnownUid;
    var username, db := TrimSpace(raw), h.vault.db;
    var plan, uid := Planned(m.cfg, db, username, e), KnownUid(db, username);
    more := [];
    NothingIsEarned();
    if plan.Ok? {
      more := CommandTrace(username, Provisioning(uid), Fatal(e));
      CommandsAreEarned(username, Provisioning(uid), Fatal(e));
      var tried := Attempt(h, username, Provisioning(uid), Fatal(e));
      if tried.err.None? {
        BackupFirst.PlannedHasHost(m, db, username, e);
        BackupFirst.PassedCommands(username, Provisioning(uid), Fatal(e));
        var opening := OpenAppends(m, tried.host, NewRow(m.cfg, db, username, plan.value, e), e.enabling);
        OpeningIsEarned(username, more, uid, opening);
        assert h.trace + more + opening == h.trace + (more + opening);
        more := more + opening;
      }
    }
  }

  lemma ClosingIsEarned(username: string, ran: seq<Event>, closing: seq<Event>)
    requires ran == [Event(username, Ran(StopServices, true)), Event(username, Ran(DisableLinger, true))]
    requires closing == [Event(username, RoutesClosed(false))] || closing == [Event(username, RoutesClosed(true))]
      || closing == [Event(username, RoutesClosed(true)), Event(username, RowSaved(Paused))]
    ensures AllEarned(ran + closing)
  {
    hide AddingSteps;
  }

  lemma PauseIsEarned(m: Setup, h: Host, username: string, e: Env) returns (more: seq<Event>)
    ensures DeactivateOutcome(m, h, username, e).host.trace == h.trace + more && AllEarned(more)
  {
    more := [];
    NothingIsEarned();
    if username in h.vault.db.users && h.vault.db.users[username].status != Paused {
      var commands := [StopServices, DisableLinger];
      more := CommandTrace(username, commands, e.pausing);
      CommandsAreEarned(username, commands, e.pausing);
      hide CommandTrace, FirstFailing, PutUser, DisableUserRoutes, AllEarned;
      var tried := Attempt(h, username, commands, e.pausing);
      if tried.err.None? {
        BackupFirst.PassedCommands(username, commands, e.pausing);
        var u := h.vault.db.users[username];
        var closing := Close(m, tried.host, username, u, e.disabling).host.trace[|tried.host.trace|..];
        assert Close(m, tried.host, username, u, e.disabling).host.trace == tried.host.trace + closing;
        ClosingIsEarned(username, more, closing);
        assert h.trace + more + closing == h.trace + (more + closing);
        more := more + closing;
      }
    }
  }

  /** A destruction that completes consists of exactly these effects, in this order. */
  function Destroyed(username: string): seq<Event> {
    [Event(username, RoutesDropped(true)), Event(username, Ran(Uninstall, true)),
     Event(username, Ran(DisableLinger, true)), Event(username, Ran(UserDel, true)), Event(username, RowDeleted)]
  }

  lemma DestroyIsEarned(m: Setup, h: Host, username: string, e: Env) returns (more: seq<Event>)
    ensures Destroy(m, h, username, e).host.trace == h.trace + more && AllEarned(more)
    ensures Destroy(m, h, username, e).err.None? ==> more == Destroyed(username)
    ensures Destroy(m, h, username, e).err.Some? ==> forall p :: 0 <= p < |more| ==> more[p].effect != RowDeleted
  {
    var c := DeleteUserRoutes(m.publisher, h.vault.db, username, e.deleting);
    var dropped := [Event(username, RoutesDropped(c.done))];
    more := dropped;
    assert AllEarned(dropped) by { hide Follows, AddingSteps; }
    if c.done {
      var commands := [Uninstall, DisableLinger, UserDel];
      var ran := CommandTrace(username, commands, e.failing);
      BackupFirst.CommandsAppend(username, commands, e.failing);
      CommandsAreEarned(username, commands, e.failing);
      EarnedTogether(dropped, ran);
      hide CommandTrace, FirstFailing, DeleteUserRoutes, DeleteUser, AllEarned;
      assert h.trace + dropped + ran == h.trace + (dropped + ran);
      more := dropped + ran;
      if FirstFailing(commands, e.failing).None? {
        BackupFirst.PassedCommands(username, commands, e.failing);
        if DeleteUser(c.db, username).err.None? {
          more := more + [Event(username, RowDeleted)];
          assert more == Destroyed(username);
          DestroyedIsEarned(username);
        }
      }
    }
  }

  lemma DestroyedIsEarned(username: string)
    ensures AllEarned(Destroyed(username))
  {
    hide AddingSteps;
  }

  lemma RemoveIsEarned(m: Setup, h: Host, raw: string, e: Env) returns (more: seq<Event>)
    ensures RemoveOutcome(m, h, raw, e).host.trace == h.trace + more && AllEarned(more)
    ensures RemoveOutcome(m, h, raw, e).err.None? ==>
      |more| >= 5 && more[|more| - 5..] == Destroyed(TrimSpace(raw))
  {
    Histories.RemovalInStages(m, h, raw, e);
    hide RemoveOutcome, TrimSpace, DeactivateOutcome, BackUp, Destroy, AllEarned;
    var username := TrimSpace(raw);
    more := [];
    NothingIsEarned();
    if username in h.vault.db.users {
      if h.vault.db.users[username].status == Active { more := PauseIsEarned(m, h, username, e); }
      var paused := Lifecycle.PausedFirst(m, h, username, e);
      assert paused.host.trace == h.trace + more;
      if paused.err.None? {
        var saved := BackUp(m, paused.host, username, e.backup);
        var backup := BackupIsEarned(m, paused.host, username, e.backup);
        EarnedTogether(more, backup);
        assert saved.host.trace == h.trace + (more + backup);
        more := more + backup;
        if saved.err.None? {
          var destruction := DestroyIsEarned(m, saved.host, username, e);
          EarnedTogether(more, destruction);
          assert h.trace + more + destruction == h.trace + (more + destruction);
          more := more + destruction;
        }
      }
    }
  }

  lemma BackupIsEarned(m: Setup, h: Host, username: string, e: Backup.Env) returns (more: seq<Event>)
    ensures BackUp(m, h, username, e).host.trace == h.trace + more && AllEarned(more)
  {
    hide Backup.CreateBackup, Follows, AddingSteps;
    more := if m.hook then [Event(username, BackedUp(BackUp(m, h, username, e).err.None?))] else [];
  }

  lemma StepIsEarned(m: Setup, h: Host, op: Op, e: Env) returns (more: seq<Event>)
    ensures Step(m, h, op, e).host.trace == h.trace + more && AllEarned(more)
  {
    hide AllEarned, AddOutcome, RemoveOutcome, DeactivateOutcome;
    more := [];
    NothingIsEarned();
    match op
    case AddUser(raw) => more := AddIsEarned(m, h, raw, e);
    case ActivateUser(u) =>
      if u in h.vault.db.users { more := AddIsEarned(m, h, h.vault.db.users[u].username, e); }
    case DeactivateUser(u) => more := PauseIsEarned(m, h, u, e);
    case RemoveUser(raw) => more := RemoveIsEarned(m, h, raw, e);
  }

  /** In every run, with any failures and with changes by the route service in between, a user is saved as
      active only after every command of the same operation, the readiness checks included, passed; saved as
      paused only after the services were stopped, lingering disabled and the routes closed; and deleted only
      after routes, installation, lingering and account went. */
  lemma {:induction false} EveryRunIsEarned(m: Setup, h: Host, history: seq<Work>)
    requires AllEarned(h.trace)
    ensures AllEarned(Run(m, h, history).trace)
    decreases |history|
  {
    hide AllEarned, Step, Api.Change;
    if history != [] {
      if history[0].ByUser? {
        var more := StepIsEarned(m, h, history[0].op, history[0].env);
        EarnedTogether(h.trace, more);
      }
      EveryRunIsEarned(m, Do(m, h, history[0]), history[1..]);
    }
  }

  // ----- When an operation completes, and what it leaves -----

  lemma {:induction false} NoneFailsExactly(commands: seq<Command>, failing: set<Command>)
    ensures FirstFailing(commands, failing).None? <==> forall c :: c in commands ==> c !in failing
    ensures FirstFailing(commands, failing).Some? ==>
      exists c :: c in commands && c in failing && FirstFailing(commands, failing) == Some(CommandFailed(c))
    decreases |commands|
  {
    if commands != [] {
      NoneFailsExactly(commands[1..], failing);
      assert forall c :: c in commands <==> c == commands[0] || c in commands[1..];
    }
  }

  /** The commands that set the user up, from the session on. */
  predicate SetsUp(c: Command) {
    c in {EnableLinger, StartUserManager, InstallRuntime, WriteCli, WriteGatewayStart, WriteOnboardEnv, Onboard,
          WriteGatewayUnit, WriteWatcherUnit, ProtectDir, ProtectConfig, DaemonReload, EnableGateway, EnableWatcher}
  }

  /** The readiness checks. */
  predicate Checks(c: Command) {
    c in {CheckCli, CheckStateDir, CheckConfig, CheckOverlayDir, CheckGatewayUnit, CheckWatcherUnit,
          GatewayIsActive, WatcherIsActive}
  }

  /** None of the commands of adding fails. An account that is there already is no failure, and the number
      of the user is only looked up if the store does not know it. */
  predicate CommandsPass(db: Db, username: string, e: Env) {
    && (UserAdd in e.failing ==> e.alreadyExists)
    && (LookupUid in e.failing ==> username in db.users && db.users[username].uid != 0)
    && forall c :: c in e.failing ==> !SetsUp(c) && !Checks(c)
  }

  lemma InEither(a: seq<Command>, b: seq<Command>, c: Command)
    ensures c in a + b <==> c in a || c in b
  {}

  lemma InReadiness(c: Command)
    ensures c in READINESS <==> Checks(c)
  {}

  /** The commands between the account and the checks. */
  function Middle(): seq<Command> {
    [StartUserManager, InstallRuntime, WriteCli, WriteGatewayStart, WriteOnboardEnv, Onboard, WriteGatewayUnit,
     WriteWatcherUnit, ProtectDir, ProtectConfig, DaemonReload, EnableGateway, EnableWatcher]
  }

  lemma InMiddle(c: Command)
    ensures c in Middle() <==> SetsUp(c) && c != EnableLinger
  {}

  lemma NeededExactly(uid: int, c: Command)
    ensures c in Provisioning(uid) <==> c == UserAdd || (c == LookupUid && uid == 0) || SetsUp(c) || Checks(c)
  {
    var start := [UserAdd, EnableLinger] + if uid == 0 then [LookupUid] else [];
    assert Provisioning(uid) == start + Middle() + READINESS;
    assert c in start <==> c == UserAdd || c == EnableLinger || (c == LookupUid && uid == 0);
    assert SetsUp(EnableLinger);
    hide Provisioning, Middle, SetsUp, Checks;
    InEither(start, Middle(), c);
    InEither(start + Middle(), READINESS, c);
    InMiddle(c);
    InReadiness(c);
  }

  lemma LookupIsNoCheck()
    ensures !SetsUp(UserAdd) && !Checks(UserAdd) && !SetsUp(LookupUid) && !Checks(LookupUid)
  {}

  lemma CommandsPassExactly(db: Db, username: string, e: Env)
    ensures FirstFailing(Provisioning(KnownUid(db, username)), Fatal(e)).None? <==> CommandsPass(db, username, e)
  {
    var uid := KnownUid(db, username);
    NoneFailsExactly(Provisioning(uid), Fatal(e));
    hide FirstFailing, Provisioning, SetsUp, Checks;
    forall c: Command
      ensures c in Provisioning(uid) <==> c == UserAdd || (c == LookupUid && uid == 0) || SetsUp(c) || Checks(c)
    {
      NeededExactly(uid, c);
    }
    assert !SetsUp(UserAdd) && !Checks(UserAdd) && !SetsUp(LookupUid) && !Checks(LookupUid) by { LookupIsNoCheck(); }
  }

  /** Adding finds nothing wrong before its first command: a valid name, a domain, a port and randomness. */
  predicate MayBegin(cfg: MaybeConfig, db: Db, username: string, e: Env) {
    && ValidUsername(username) && HasDomain(cfg) && e.random
    && (username in db.users || (Ports.Settings(cfg).portRangeStart > 0 && Ports.Settings(cfg).portRangeStep >= 20))
  }

  lemma BeginsExactly(m: Setup, db: Db, username: string, e: Env)
    requires NoZeroPort(db)
    ensures Planned(m.cfg, db, username, e).Ok? <==> MayBegin(m.cfg, db, username, e)
  {
    Ports.AllocationIsTight(m.cfg, Ports.UsedPorts(db.users.Values));
    hide ValidateUsername, Ports.UsedPorts;
    ValidUsernameIsExact(username);
    if ValidUsername(username) { HostnamesRead(m.cfg, "", username); }
  }

  /** Adding completes exactly if it may begin, no command fails and the publisher works; the error else names
      a command that failed, and before the publisher is asked nothing has changed. */
  lemma AddCompletesExactly(m: Setup, h: Host, raw: string, e: Env)
    requires Api.Sound(m.cfg, h.vault.db) && NoZeroPort(h.vault.db)
    ensures var db, username, d := h.vault.db, TrimSpace(raw), AddOutcome(m, h, raw, e);
      var runs := MayBegin(m.cfg, db, username, e) && CommandsPass(db, username, e);
      && (d.err.None? <==> runs && e.enabling.Works?)
      && (!runs ==> d.host.vault == h.vault)
      && (d.err.Some? && d.err.value.CommandFailed? ==> d.err.value.command in e.failing)
  {
    var username, db := TrimSpace(raw), h.vault.db;
    hide TrimSpace, CommandTrace, Provisioning, MayBegin, CommandsPass, Api.Sound, Open, KnownUid;
    BeginsExactly(m, db, username, e);
    CommandsPassExactly(db, username, e);
    AddedTables(m, h, raw, e);
    NoneFailsExactly(Provisioning(KnownUid(db, username)), Fatal(e));
    if Provisioned(m, db, username, e) {
      BackupFirst.PlannedHasHost(m, db, username, e);
      var plan := Planned(m.cfg, db, username, e);
      var tried := Attempt(h, username, Provisioning(KnownUid(db, username)), Fatal(e));
      OpenErrs(m, tried.host, NewRow(m.cfg, db, username, plan.value, e), e.enabling);
    }
    hide FirstFailing;
  }

  lemma OpenErrs(m: Setup, h: Host, row: User, fault: CallFault)
    ensures var d := Open(m, h, row, fault); d.err.Some? ==> !d.err.value.CommandFailed?
  {
    hide PutUser, EnableUserGateway, DeleteUser;
  }

  /** What a completed add leaves: the user with the number and the port it had, or those found, active and
      lingering, and its open gateway. Nothing else differs. */
  lemma AddedIsExact(m: Setup, h: Host, raw: string, e: Env)
    requires Api.Sound(m.cfg, h.vault.db) && NoZeroPort(h.vault.db) && AddOutcome(m, h, raw, e).err.None?
    ensures m.cfg.Some?
    ensures var db, after, u := h.vault.db, AddOutcome(m, h, raw, e).host.vault.db, TrimSpace(raw);
      var host := "gateway-" + u + ("." + TrimSpace(m.cfg.value.subdomain) + "." + TrimSpace(m.cfg.value.domain));
      && u in after.users
      && (u in db.users ==> after.users[u].port == db.users[u].port)
      && (u !in db.users ==> Ok(after.users[u].port) == Ports.Allocated(m.cfg, Ports.UsedPorts(db.users.Values)))
      && var uid := if u in db.users && db.users[u].uid != 0 then db.users[u].uid else e.uid;
        var port := after.users[u].port;
        after == db.(users := db.users[u := User(u, uid, port, Active, true, "https://" + host)],
                     routes := db.routes["gateway:" + u := Route("gateway:" + u, u, Gateway, "", port, host, true)])
  {
    AddedTables(m, h, raw, e);
    var u, db := TrimSpace(raw), h.vault.db;
    var row := NewRow(m.cfg, db, u, Planned(m.cfg, db, u, e).value, e);
    ValidUsernameIsExact(u);
    HostnamesRead(m.cfg, "", u);
    PlannedPort(m.cfg, db, u, e);
    hide AddOutcome, Provisioned, Planned, GatewayHostname, TrimSpace, ValidUsername, Api.Sound, Ports.Allocated,
         Ports.UsedPorts;
  }

  lemma PlannedPort(cfg: MaybeConfig, db: Db, u: string, e: Env)
    requires NoZeroPort(db) && Planned(cfg, db, u, e).Ok?
    ensures u in db.users ==> Planned(cfg, db, u, e).value == db.users[u].port
    ensures u !in db.users ==>
      Ok(Planned(cfg, db, u, e).value) == Ports.Allocated(cfg, Ports.UsedPorts(db.users.Values))
  {
    hide ValidateUsername, GatewayHostname, Ports.Allocated, Ports.UsedPorts;
  }

  /** Resuming completes exactly if the user is there and adding it again completes. */
  lemma ResumeCompletesExactly(m: Setup, h: Host, u: string, e: Env)
    requires Api.Sound(m.cfg, h.vault.db) && NoZeroPort(h.vault.db)
    ensures ActivateOutcome(m, h, u, e).err.None? <==>
      u in h.vault.db.users && HasDomain(m.cfg) && e.random && CommandsPass(h.vault.db, u, e) && e.enabling.Works?
    ensures u in h.vault.db.users ==> ActivateOutcome(m, h, u, e) == AddOutcome(m, h, u, e)
  {
    if u in h.vault.db.users {
      Lifecycle.OwnNameIsTrimmed(m.cfg, h.vault.db, u);
      AddCompletesExactly(m, h, u, e);
      hide AddOutcome, HasDomain, CommandsPass, Integrity;
    }
  }

  /** The services stop and lingering is disabled. */
  predicate PausePasses(e: Env) { StopServices !in e.pausing && DisableLinger !in e.pausing }

  lemma PausePassesExactly(e: Env)
    ensures FirstFailing([StopServices, DisableLinger], e.pausing).None? <==> PausePasses(e)
  {
    NoneFailsExactly([StopServices, DisableLinger], e.pausing);
    hide FirstFailing;
  }

  /** Pausing completes for a paused user, without doing anything, and otherwise exactly if no command fails
      and the publisher works. It then leaves the user paused and not lingering, with every route closed, and
      nothing else differs; a failed command leaves everything as it was. */
  lemma PauseCompletesExactly(m: Setup, h: Host, u: string, e: Env)
    requires Api.Sound(m.cfg, h.vault.db)
    ensures var db, d := h.vault.db, DeactivateOutcome(m, h, u, e);
      var after := d.host.vault.db;
      && (d.err.None? <==>
            u in db.users && (db.users[u].status == Paused || (PausePasses(e) && e.disabling.Works?)))
      && (d.err.None? && db.users[u].status == Paused ==> d.host == h)
      && (u in db.users && !PausePasses(e) ==> d.host.vault == h.vault)
      && (d.err.None? && db.users[u].status != Paused ==>
            && after == db.(users := db.users[u := db.users[u].(status := Paused, linger := false)],
                            routes := after.routes)
            && after.routes.Keys == db.routes.Keys
            && forall id :: id in db.routes ==>
              after.routes[id] == if db.routes[id].username == u then db.routes[id].(enabled := false)
                                  else db.routes[id])
  {
    Lifecycle.DeactivatedTables(m, h, u, e);
    PausePassesExactly(e);
    var db := h.vault.db;
    if u in db.users { assert db.users[u].username == u; }
    hide FirstFailing, CommandTrace, Integrity, PutUser, WellNamed;
  }

  /** The installation, lingering and the account go. */
  predicate DestructionPasses(e: Env) {
    Uninstall !in e.failing && DisableLinger !in e.failing && UserDel !in e.failing
  }

  lemma DestructionPassesExactly(e: Env)
    ensures FirstFailing([Uninstall, DisableLinger, UserDel], e.failing).None? <==> DestructionPasses(e)
  {
    NoneFailsExactly([Uninstall, DisableLinger, UserDel], e.failing);
    hide FirstFailing;
  }

  lemma DestroyCompletesExactly(m: Setup, h: Host, u: string, e: Env)
    requires u in h.vault.db.users
    ensures var d := Destroy(m, h, u, e);
      && (d.err.None? <==> e.deleting.Works? && DestructionPasses(e))
      && d.host.vault.db.users == if d.err.None? then h.vault.db.users - {u} else h.vault.db.users
  {
    DestructionPassesExactly(e);
    hide FirstFailing, CommandTrace, RoutesExceptUser;
  }

  /** The backup ahead of a removal, if there is to be one, succeeds. */
  predicate BackupPasses(m: Setup, h: Host, u: string, e: Env) {
    m.hook ==> Backup.CreateBackup(m.backups, h.vault, u, e.backup).result.Ok?
  }

  /** Whether a backup succeeds depends on the files and on the user being there, not on other rows. */
  lemma BackupIgnoresRows(m: Setup, v: Backup.Vault, w: Backup.Vault, u: string, e: Backup.Env)
    requires v.files == w.files && TrimSpace(u) in v.db.users && TrimSpace(u) in w.db.users
    ensures Backup.CreateBackup(m.backups, v, u, e).result == Backup.CreateBackup(m.backups, w, u, e).result
  {
    hide Backup.PathOf, Backup.IdOf, TrimSpace, Backup.ArchivePath, Backup.EnsureKey;
  }

  /** Removal completes exactly if the user is there, an active one can be paused, the backup succeeds, the
      routes go and none of the three destructive commands fails. It deletes the row only then: a failure, of
      whatever step, leaves the user known. */
  lemma RemoveCompletesExactly(m: Setup, h: Host, raw: string, e: Env)
    requires Api.Sound(m.cfg, h.vault.db)
    ensures var db, u, d := h.vault.db, TrimSpace(raw), RemoveOutcome(m, h, raw, e);
      && (d.err.None? <==>
            && u in db.users && (db.users[u].status == Active ==> PausePasses(e) && e.disabling.Works?)
            && BackupPasses(m, h, u, e) && e.deleting.Works? && DestructionPasses(e))
      && d.host.vault.db.users.Keys == if d.err.None? then db.users.Keys - {u} else db.users.Keys
  {
    Histories.RemovalInStages(m, h, raw, e);
    hide RemoveOutcome, TrimSpace, BackUp, Destroy, Backup.CreateBackup, Api.Sound, PausePasses, DestructionPasses,
         Lifecycle.PausedFirst;
    var db, u := h.vault.db, TrimSpace(raw);
    if u in db.users {
      PausedFirstCompletes(m, h, u, e);
      var paused := Lifecycle.PausedFirst(m, h, u, e);
      if paused.err.None? {
        BackupPassesExactly(m, h, paused.host, u, e);
        var saved := BackUp(m, paused.host, u, e.backup);
        BackupKeepsUsers(m, paused.host, u, e.backup);
        if saved.err.None? { DestroyCompletesExactly(m, saved.host, u, e); }
      }
    }
  }

  lemma BackupKeepsUsers(m: Setup, h: Host, u: string, e: Backup.Env)
    ensures BackUp(m, h, u, e).host.vault.db.users == h.vault.db.users
  {
    hide Backup.CreateBackup;
    Backup.OnlyBackupsChange(m.backups, h.vault, u, e);
  }

  lemma BackupPassesExactly(m: Setup, h: Host, paused: Host, u: string, e: Env)
    requires Api.Sound(m.cfg, h.vault.db) && u in h.vault.db.users && u in paused.vault.db.users
    requires paused.vault.files == h.vault.files
    ensures BackUp(m, paused, u, e.backup).err.None? <==> BackupPasses(m, h, u, e)
  {
    assert ValidUsername(u);
    ValidUsernameHasNoSeparators(u);
    hide TrimSpace, Backup.CreateBackup, Integrity, WellNamed, ValidUsername;
    BackupIgnoresRows(m, h.vault, paused.vault, u, e.backup);
  }

  lemma PausedFirstCompletes(m: Setup, h: Host, u: string, e: Env)
    requires Api.Sound(m.cfg, h.vault.db) && u in h.vault.db.users
    ensures var db, d := h.vault.db, Lifecycle.PausedFirst(m, h, u, e);
      && (d.err.None? <==> db.users[u].status == Active ==> PausePasses(e) && e.disabling.Works?)
      && d.host.vault.db.users.Keys == db.users.Keys && d.host.vault.files == h.vault.files
  {
    Lifecycle.DeactivatedTables(m, h, u, e);
    PauseCompletesExactly(m, h, u, e);
    Lifecycle.StatusIsKnown(m.cfg, h.vault.db, u);
    Lifecycle.OwnNameIsTrimmed(m.cfg, h.vault.db, u);
    hide Api.Sound, DeactivateOutcome, PausePasses, FirstFailing, SetRoutesEnabled;
  }

  /** The publisher that records takes all routes of the user, the one that asks the service only the gateway;
      a call that fails before it changed anything takes none. */
  lemma DroppedRoutes(p: Publisher, db: Db, u: string, f: CallFault)
    ensures var c := DeleteUserRoutes(p, db, u, f);
      && (c.done <==> f.Works?)
      && c.db == db.(routes := c.db.routes)
      && (forall id :: id in c.db.routes <==>
            && id in db.routes
            && (f.FailsBefore? || if p.Recorder? then db.routes[id].username != u else id != "gateway:" + u))
      && forall id :: id in c.db.routes ==> c.db.routes[id] == db.routes[id]
  {
    if GatewayRouteId(u) !in db.routes { assert db.routes - {GatewayRouteId(u)} == db.routes; }
  }
}
