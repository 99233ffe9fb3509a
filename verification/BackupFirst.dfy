/** The order of effects: nothing is destroyed before the user is paused and backed up. */
module BackupFirst {
  import opened Text
  import opened State
  import opened Identity
  import opened Users
  import Api
  import Backup

  predicate Destructive(e: Effect) {
    e.RoutesDropped? || e.RowDeleted? || (e.Ran? && e.command in {Uninstall, UserDel})
  }

  /** The effects of removal behind its backup. */
  predicate Removal(e: Effect) { Destructive(e) || (e.Ran? && e.command == DisableLinger) }

  predicate Harmless(events: seq<Event>) {
    forall i :: 0 <= i < |events| ==> !Destructive(events[i].effect)
  }

  predicate Removes(events: seq<Event>, username: string) {
    forall i :: 0 <= i < |events| ==> events[i].username == username && Removal(events[i].effect)
  }

  /** A successful backup of that user came before, and only removal steps of that user since. */
  predicate BackedBefore(trace: seq<Event>, p: nat)
    requires p < |trace|
  {
    exists q :: 0 <= q < p && IsBackup(trace, q, trace[p].username) && Removes(trace[q + 1..p], trace[p].username)
  }

  predicate IsBackup(trace: seq<Event>, q: nat, username: string) {
    q < |trace| && trace[q] == Event(username, BackedUp(true))
  }

  predicate Safe(trace: seq<Event>) {
    forall p :: 0 <= p < |trace| && Destructive(trace[p].effect) ==> BackedBefore(trace, p)
  }

  // ----- Extending a trace -----

  lemma BackedBeforeGrows(trace: seq<Event>, more: seq<Event>, p: nat)
    requires p < |trace| && BackedBefore(trace, p)
    ensures BackedBefore(trace + more, p)
  {
    var all, username := trace + more, trace[p].username;
    var q :| 0 <= q < p && IsBackup(trace, q, username) && Removes(trace[q + 1..p], username);
    assert all[p] == trace[p] && IsBackup(all, q, username) && all[q + 1..p] == trace[q + 1..p];
  }

  lemma HarmlessStaysSafe(trace: seq<Event>, more: seq<Event>)
    requires Safe(trace) && Harmless(more)
    ensures Safe(trace + more)
  {
    var all := trace + more;
    forall p | |trace| <= p < |all| ensures !Destructive(all[p].effect) { assert all[p] == more[p - |trace|]; }
    forall p | 0 <= p < |all| && Destructive(all[p].effect) ensures BackedBefore(all, p) {
      BackedBeforeGrows(trace, more, p);
    }
  }

  lemma RemovalStaysSafe(trace: seq<Event>, username: string, more: seq<Event>)
    requires Safe(trace) && trace != [] && IsBackup(trace, |trace| - 1, username) && Removes(more, username)
    ensures Safe(trace + more)
  {
    var all := trace + more;
    forall p | 0 <= p < |all| && Destructive(all[p].effect) ensures BackedBefore(all, p) {
      if p < |trace| {
        BackedBeforeGrows(trace, more, p);
      } else {
        var q: nat := |trace| - 1;
        assert all[p] == more[p - |trace|];
        assert IsBackup(all, q, username) && all[q + 1..p] == more[..p - |trace|];
      }
    }
  }

  // ----- What each operation appends -----

  lemma {:induction false} CommandsAppend(username: string, commands: seq<Command>, failing: set<Command>)
    ensures forall i :: 0 <= i < |CommandTrace(username, commands, failing)| ==>
      var v := CommandTrace(username, commands, failing)[i];
      v.username == username && v.effect.Ran? && v.effect.command in commands
  {
    if commands != [] && commands[0] !in failing { CommandsAppend(username, commands[1..], failing); }
  }

  lemma HarmlessMore(a: seq<Event>, b: seq<Event>)
    requires Harmless(a) && Harmless(b)
    ensures Harmless(a + b)
  {}

  lemma OpenAppends(m: Setup, h: Host, row: User, fault: CallFault) returns (more: seq<Event>)
    ensures Open(m, h, row, fault).host.trace == h.trace + more && Harmless(more)
  {
    hide PutUser, EnableUserGateway, DeleteUser;
    more := Open(m, h, row, fault).host.trace[|h.trace|..];
  }

  lemma ProvisioningIsHarmless(username: string, uid: int, failing: set<Command>)
    ensures Harmless(CommandTrace(username, Provisioning(uid), failing))
  {
    CommandsAppend(username, Provisioning(uid), failing);
    assert Uninstall !in Provisioning(uid) && UserDel !in Provisioning(uid);
    hide Provisioning, CommandTrace;
  }

  lemma AddAppends(m: Setup, h: Host, raw: string, e: Env) returns (more: seq<Event>)
    ensures AddOutcome(m, h, raw, e).host.trace == h.trace + more && Harmless(more)
  {
    hide TrimSpace, Planned, Provisioning, CommandTrace, Open, Harmless, KnownUid;
    var username, db := TrimSpace(raw), h.vault.db;
    var plan := Planned(m.cfg, db, username, e);
    var uid := KnownUid(db, username);
    more := [];
    NothingIsHarmless();
    if plan.Ok? {
      ProvisioningIsHarmless(username, uid, Fatal(e));
      more := CommandTrace(username, Provisioning(uid), Fatal(e));
      var tried := Attempt(h, username, Provisioning(uid), Fatal(e));
      if tried.err.None? {
        PlannedHasHost(m, db, username, e);
        var opening := OpenAppends(m, tried.host, NewRow(m.cfg, db, username, plan.value, e), e.enabling);
        assert h.trace + more + opening == h.trace + (more + opening);
        HarmlessMore(more, opening);
        more := more + opening;
      }
    }
  }

  lemma PlannedHasHost(m: Setup, db: Db, username: string, e: Env)
    requires Planned(m.cfg, db, username, e).Ok?
    ensures GatewayHostname(m.cfg, username).Some?
  {}

  lemma NothingIsHarmless()
    ensures Harmless([])
  {}

  predicate DisablesLinger(events: seq<Event>) {
    exists i :: 0 <= i < |events| && events[i].effect == Ran(DisableLinger, true)
  }

  lemma {:induction false} PassedCommands(username: string, commands: seq<Command>, failing: set<Command>)
    requires FirstFailing(commands, failing).None?
    ensures |CommandTrace(username, commands, failing)| == |commands|
    ensures forall i :: 0 <= i < |commands| ==>
      CommandTrace(username, commands, failing)[i] == Event(username, Ran(commands[i], true))
  {
    if commands != [] { PassedCommands(username, commands[1..], failing); }
  }

  /** Pausing appends nothing destructive, and when it pauses a user, it disables lingering and saves
      the paused row last. */
  lemma DeactivateAppends(m: Setup, h: Host, username: string, e: Env) returns (more: seq<Event>)
    ensures DeactivateOutcome(m, h, username, e).host.trace == h.trace + more && Harmless(more)
    ensures DeactivateOutcome(m, h, username, e).err.None? && h.vault.db.users[username].status != Paused ==>
      more != [] && more[|more| - 1].effect == RowSaved(Paused) && DisablesLinger(more)
  {
    more := [];
    if username in h.vault.db.users && h.vault.db.users[username].status != Paused {
      var commands := [StopServices, DisableLinger];
      CommandsAppend(username, commands, e.pausing);
      more := CommandTrace(username, commands, e.pausing);
      hide CommandTrace, FirstFailing, PutUser, DisableUserRoutes;
      var tried := Attempt(h, username, commands, e.pausing);
      if tried.err.None? {
        PassedCommands(username, commands, e.pausing);
        var u := h.vault.db.users[username];
        var closing := Close(m, tried.host, username, u, e.disabling).host.trace[|tried.host.trace|..];
        assert Close(m, tried.host, username, u, e.disabling).host.trace == tried.host.trace + closing;
        assert (more + closing)[1].effect == Ran(DisableLinger, true);
        more := more + closing;
      }
    }
  }

  const DESTRUCTION := [Uninstall, DisableLinger, UserDel]

  lemma DestructionRemoves(username: string, failing: set<Command>)
    ensures Removes(CommandTrace(username, DESTRUCTION, failing), username)
  {
    CommandsAppend(username, DESTRUCTION, failing);
    hide CommandTrace;
    var ran := CommandTrace(username, DESTRUCTION, failing);
    forall i | 0 <= i < |ran| ensures ran[i].username == username && Removal(ran[i].effect) {
      assert ran[i].effect.command in DESTRUCTION;
    }
  }

  lemma RemovesMore(a: seq<Event>, b: seq<Event>, username: string)
    requires Removes(a, username) && Removes(b, username)
    ensures Removes(a + b, username)
  {}

  lemma DestroyAppends(m: Setup, h: Host, username: string, e: Env) returns (more: seq<Event>)
    ensures Destroy(m, h, username, e).host.trace == h.trace + more && Removes(more, username)
  {
    var c := DeleteUserRoutes(m.publisher, h.vault.db, username, e.deleting);
    more := [Event(username, RoutesDropped(c.done))];
    if c.done {
      var ran := CommandTrace(username, DESTRUCTION, e.failing);
      DestructionRemoves(username, e.failing);
      RemovesMore(more, ran, username);
      hide CommandTrace, FirstFailing, DeleteUserRoutes, DeleteUser, Removes;
      assert h.trace + more + ran == h.trace + (more + ran);
      more := more + ran;
      if FirstFailing(DESTRUCTION, e.failing).None? && DeleteUser(c.db, username).err.None? {
        var gone := [Event(username, RowDeleted)];
        RowDeletionRemoves(username);
        RemovesMore(more, gone, username);
        assert h.trace + more + gone == h.trace + (more + gone);
        more := more + gone;
      }
    }
  }

  lemma RowDeletionRemoves(username: string)
    ensures Removes([Event(username, RowDeleted)], username)
  {}

  /** The user is there, and pausing the user, if active, succeeds. */
  predicate ReachesBackup(m: Setup, h: Host, username: string, e: Env) {
    && username in h.vault.db.users
    && (h.vault.db.users[username].status == Active ==> DeactivateOutcome(m, h, username, e).err.None?)
  }

  /** On every trace of a removal: first the pause, exactly if the user is active, then the backup,
      then the destruction; each only if what comes before succeeded. Lingering is disabled before
      the backup exactly for active users. */
  lemma RemovalIsBackupFirst(m: Setup, h: Host, raw: string, e: Env)
    returns (pausing: seq<Event>, backup: seq<Event>, destruction: seq<Event>)
    requires m.hook
    ensures var username := TrimSpace(raw);
      && RemoveOutcome(m, h, raw, e).host.trace == h.trace + pausing + backup + destruction
      && Harmless(pausing) && Removes(destruction, username)
      && (backup == [] || backup == [Event(username, BackedUp(true))] || backup == [Event(username, BackedUp(false))])
      && (destruction != [] ==> backup == [Event(username, BackedUp(true))])
      && (backup != [] && h.vault.db.users[username].status == Active ==>
            pausing != [] && pausing[|pausing| - 1].effect == RowSaved(Paused))
      && (pausing != [] ==> username in h.vault.db.users && h.vault.db.users[username].status == Active)
      && (backup != [] <==> ReachesBackup(m, h, username, e))
      && (backup != [] ==> (DisablesLinger(pausing) <==> h.vault.db.users[username].status == Active))
  {
    hide TrimSpace, DeactivateOutcome, Destroy, Backup.CreateBackup;
    var username := TrimSpace(raw);
    pausing, backup, destruction := [], [], [];
    if username in h.vault.db.users {
      var paused := Done(h, None);
      if h.vault.db.users[username].status == Active {
        pausing := DeactivateAppends(m, h, username, e);
        paused := DeactivateOutcome(m, h, username, e);
      }
      if paused.err.None? {
        var saved := BackUp(m, paused.host, username, e.backup);
        backup := [Event(username, BackedUp(saved.err.None?))];
        assert saved.host.trace == paused.host.trace + backup;
        if saved.err.None? { destruction := DestroyAppends(m, saved.host, username, e); }
      }
    }
  }

  // ----- Whole runs -----

  lemma RemoveStaysSafe(m: Setup, h: Host, raw: string, e: Env)
    requires Safe(h.trace) && m.hook
    ensures Safe(RemoveOutcome(m, h, raw, e).host.trace)
  {
    hide Safe, RemoveOutcome, TrimSpace, Removes;
    var pausing, backup, destruction := RemovalIsBackupFirst(m, h, raw, e);
    HarmlessStaysSafe(h.trace, pausing);
    HarmlessStaysSafe(h.trace + pausing, backup);
    var trace := h.trace + pausing + backup;
    if destruction == [] {
      assert trace + [] == trace;
    } else {
      assert IsBackup(trace, |trace| - 1, TrimSpace(raw));
      RemovalStaysSafe(trace, TrimSpace(raw), destruction);
    }
  }

  lemma StepStaysSafe(m: Setup, h: Host, op: Op, e: Env)
    requires Safe(h.trace) && m.hook
    ensures Safe(Step(m, h, op, e).host.trace)
  {
    hide Safe, AddOutcome, RemoveOutcome, DeactivateOutcome;
    match op
    case AddUser(raw) =>
      var more := AddAppends(m, h, raw, e);
      HarmlessStaysSafe(h.trace, more);
    case ActivateUser(u) =>
      if u in h.vault.db.users {
        var more := AddAppends(m, h, h.vault.db.users[u].username, e);
        HarmlessStaysSafe(h.trace, more);
      }
    case DeactivateUser(u) =>
      var more := DeactivateAppends(m, h, u, e);
      HarmlessStaysSafe(h.trace, more);
    case RemoveUser(raw) => RemoveStaysSafe(m, h, raw, e);
  }

  /** In every run, with any failures and with changes by the route service in between, each dropped
      route set, uninstall, account deletion and row deletion comes after a successful backup of that
      user in the same removal. */
  lemma {:induction false} EveryRunIsBackupFirst(m: Setup, h: Host, history: seq<Work>)
    requires Safe(h.trace) && m.hook
    ensures Safe(Run(m, h, history).trace)
    decreases |history|
  {
    hide Safe, Step, Api.Change;
    if history != [] {
      if history[0].ByUser? { StepStaysSafe(m, h, history[0].op, history[0].env); }
      EveryRunIsBackupFirst(m, Do(m, h, history[0]), history[1..]);
    }
  }
}
