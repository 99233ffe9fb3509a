/** Publication of the tunnel configuration: write, validate, signal, roll back. */
module Tunnel {
  import opened Text
  import opened State
  import opened Identity
  import opened Ingress

  /** What the tunnel process and the validator have seen, oldest first. */
  datatype Event = Vetted(bytes: string) | Loaded(bytes: string)

  /** The files of the machine, the configuration the tunnel runs, and the events so far. */
  datatype Host = Host(files: map<string, string>, loaded: string, log: seq<Event>)

  /** What a reload command did: it reloaded and said so, failed without reloading, or
      reloaded and still reported a failure. */
  datatype Signal = Reloaded | FailedIdle | FailedReloaded

  /** The outcome of every fallible step of one publication; `true` is success. */
  datatype Faults = Faults(stat: bool, read: bool, mkdir: bool, backup: bool, write: bool,
                           validate: bool, rollback: bool, hup: Signal, hupAgain: Signal)

  datatype PublishError = Rendering(cause: RenderError) | NoCredentials | MkdirFailed | BackupFailed | WriteFailed
    | ValidateFailed | SighupFailed | RollbackFailed

  datatype Summary = Summary(backupPath: string, rolledBack: bool)

  datatype Published = Published(host: Host, summary: Summary, err: Option<PublishError>)

  datatype Settings = Settings(cfg: MaybeConfig, path: string, skipCredentialCheck: bool)

  function Written(h: Host, path: string, data: string, ok: bool): Host {
    if ok then h.(files := h.files[path := data]) else h
  }

  function Signalled(h: Host, path: string, s: Signal): Host
    requires path in h.files
  {
    if s == FailedIdle then h else h.(loaded := h.files[path], log := h.log + [Loaded(h.files[path])])
  }

  /** The steps after the candidate is on disk; `original` is the content to restore, if any. */
  function Activate(s: Settings, h: Host, data: string, original: Option<string>, backupPath: string,
      f: Faults): Published
    requires s.path in h.files
  {
    if !f.validate then
      match original
      case None => Published(h, Summary(backupPath, false), Some(ValidateFailed))
      case Some(o) => Published(Written(h, s.path, o, f.rollback), Summary(backupPath, true), Some(ValidateFailed))
    else
      var vetted := h.(log := h.log + [Vetted(data)]);
      var first := Signalled(vetted, s.path, f.hup);
      if f.hup == Reloaded then Published(first, Summary(backupPath, false), None)
      else match original
        case None => Published(first, Summary(backupPath, false), Some(SighupFailed))
        case Some(o) =>
          if !f.rollback then Published(first, Summary(backupPath, false), Some(RollbackFailed))
          else
            var back := Written(first, s.path, o, true);
            Published(Signalled(back, s.path, f.hupAgain), Summary(backupPath, true), Some(SighupFailed))
  }

  function Publish(s: Settings, routes: seq<Route>, h: Host, backupPath: string, f: Faults): Published {
    var none := Summary("", false);
    match CredentialsFile(s.cfg)
    case Err(e) => Published(h, none, Some(Rendering(e)))
    case Ok(credentials) =>
      if !s.skipCredentialCheck && !(f.stat && credentials in h.files) then Published(h, none, Some(NoCredentials))
      else match Render(s.cfg, routes)
        case Err(e) => Published(h, none, Some(Rendering(e)))
        case Ok(data) =>
          var original := if f.read && s.path in h.files then Some(h.files[s.path]) else None;
          if original.Some? && !f.mkdir then Published(h, Summary(backupPath, false), Some(MkdirFailed))
          else if original.Some? && !f.backup then Published(h, Summary(backupPath, false), Some(BackupFailed))
          else
            var saved := if original.Some? then Written(h, backupPath, original.value, true) else h;
            var summary := if original.Some? then backupPath else "";
            if !f.write then Published(saved, Summary(summary, false), Some(WriteFailed))
            else Activate(s, Written(saved, s.path, data, true), data, original, summary, f)
  }

  // ----- Safety over runs -----

  /** The credentials are there and the candidate can be rendered. */
  predicate Prepared(s: Settings, routes: seq<Route>, h: Host, f: Faults) {
    && CredentialsFile(s.cfg).Ok?
    && (s.skipCredentialCheck || (f.stat && CredentialsFile(s.cfg).value in h.files))
    && Render(s.cfg, routes).Ok?
  }

  /** There is an original, and it can be read. */
  predicate ReadsOriginal(s: Settings, h: Host, f: Faults) { f.read && s.path in h.files }

  /** The publication gets as far as writing the candidate. */
  predicate Reaches(s: Settings, routes: seq<Route>, h: Host, f: Faults) {
    Prepared(s, routes, h, f) && (ReadsOriginal(s, h, f) ==> f.mkdir && f.backup) && f.write
  }

  datatype Attempt = Attempt(routes: seq<Route>, backupPath: string, faults: Faults)

  function PublishAll(s: Settings, h: Host, attempts: seq<Attempt>): Host
    decreases |attempts|
  {
    if attempts == [] then h
    else
      var a := attempts[0];
      PublishAll(s, Publish(s, a.routes, h, a.backupPath, a.faults).host, attempts[1..])
  }

  /** `bytes` passed validation among the first `n` events. */
  predicate VettedBefore(log: seq<Event>, n: nat, bytes: string) {
    exists j :: 0 <= j < n && j < |log| && log[j] == Vetted(bytes)
  }

  /** Every load was of the initial bytes or of bytes validated earlier. */
  predicate LoadsAreVetted(log: seq<Event>, initial: string) {
    forall i :: 0 <= i < |log| && log[i].Loaded? && log[i].bytes != initial ==> VettedBefore(log, i, log[i].bytes)
  }

  predicate Vouched(h: Host, bytes: string, initial: string) {
    bytes == initial || VettedBefore(h.log, |h.log|, bytes)
  }

  /** Disk, if there is a file yet, and tunnel hold only the initial bytes or validated bytes. */
  predicate Safe(s: Settings, h: Host, initial: string) {
    (s.path in h.files ==> Vouched(h, h.files[s.path], initial)) && LoadsAreVetted(h.log, initial)
  }

  lemma VettedBeforeGrows(log: seq<Event>, n: nat, more: seq<Event>, m: nat, bytes: string)
    requires VettedBefore(log, n, bytes) && n <= |log| && n <= m
    ensures VettedBefore(log + more, m, bytes)
  {
    var j :| 0 <= j < n && j < |log| && log[j] == Vetted(bytes);
    assert (log + more)[j] == Vetted(bytes);
  }

  lemma AppendKeepsVetted(log: seq<Event>, e: Event, initial: string)
    requires LoadsAreVetted(log, initial)
    requires e.Loaded? ==> e.bytes == initial || VettedBefore(log, |log|, e.bytes)
    ensures LoadsAreVetted(log + [e], initial)
  {
    var all := log + [e];
    forall i | 0 <= i < |all| && all[i].Loaded? && all[i].bytes != initial
      ensures VettedBefore(all, i, all[i].bytes)
    {
      if i < |log| { VettedBeforeGrows(log, i, [e], i, log[i].bytes); }
      else { VettedBeforeGrows(log, |log|, [e], |log|, e.bytes); }
    }
  }

  lemma VouchedGrows(h: Host, g: Host, bytes: string, initial: string)
    requires Vouched(h, bytes, initial) && h.log <= g.log
    ensures Vouched(g, bytes, initial)
  {
    if bytes != initial {
      VettedBeforeGrows(h.log, |h.log|, g.log[|h.log|..], |g.log|, bytes);
      assert h.log + g.log[|h.log|..] == g.log;
    }
  }

  lemma WriteKeepsSafe(s: Settings, h: Host, path: string, data: string, ok: bool, initial: string)
    requires Safe(s, h, initial)
    requires path == s.path ==> Vouched(h, data, initial)
    ensures Safe(s, Written(h, path, data, ok), initial)
  {}

  lemma SignalKeepsSafe(s: Settings, h: Host, signal: Signal, initial: string)
    requires Safe(s, h, initial) && s.path in h.files
    ensures Safe(s, Signalled(h, s.path, signal), initial)
  {
    AppendKeepsVetted(h.log, Loaded(h.files[s.path]), initial);
    VouchedGrows(h, Signalled(h, s.path, signal), h.files[s.path], initial);
    hide VettedBefore;
  }

  lemma VetMakesSafe(s: Settings, h: Host, data: string, initial: string)
    requires s.path in h.files && h.files[s.path] == data && LoadsAreVetted(h.log, initial)
    ensures Safe(s, h.(log := h.log + [Vetted(data)]), initial)
  {
    var log := h.log + [Vetted(data)];
    AppendKeepsVetted(h.log, Vetted(data), initial);
    assert log[|h.log|] == Vetted(data);
  }

  /** The candidate was validated and is signalled; what cannot be loaded is taken back. */
  lemma ValidatedKeepsSafe(s: Settings, before: Host, data: string, original: Option<string>, backupPath: string,
      f: Faults, initial: string)
    requires Safe(s, before, initial) && f.validate && (original.Some? ==> Vouched(before, original.value, initial))
    ensures Safe(s, Activate(s, Written(before, s.path, data, true), data, original, backupPath, f).host, initial)
  {
    hide LoadsAreVetted, VettedBefore, Vouched;
    var h := Written(before, s.path, data, true);
    var vetted := h.(log := h.log + [Vetted(data)]);
    assert LoadsAreVetted(h.log, initial);
    VetMakesSafe(s, h, data, initial);
    SignalKeepsSafe(s, vetted, f.hup, initial);
    if f.hup != Reloaded && original.Some? && f.rollback {
      var first := Signalled(vetted, s.path, f.hup);
      VouchedGrows(before, first, original.value, initial);
      WriteKeepsSafe(s, first, s.path, original.value, true, initial);
      SignalKeepsSafe(s, Written(first, s.path, original.value, true), f.hupAgain, initial);
    }
  }

  /** The candidate was rejected: what is on disk then decides. */
  lemma RejectedDecides(s: Settings, before: Host, data: string, original: Option<string>, backupPath: string,
      f: Faults, initial: string)
    requires Safe(s, before, initial) && !f.validate && (original.Some? ==> Vouched(before, original.value, initial))
    ensures Safe(s, Activate(s, Written(before, s.path, data, true), data, original, backupPath, f).host, initial)
      <==> (original.Some? && f.rollback) || Vouched(before, data, initial)
  {
    hide LoadsAreVetted, VettedBefore;
  }

  /** The attempt stops early, passes validation, can restore an original that is there, or writes
      bytes that were acceptable already. */
  predicate Accepts(s: Settings, h: Host, a: Attempt, initial: string) {
    || !Reaches(s, a.routes, h, a.faults)
    || a.faults.validate || (a.faults.read && a.faults.rollback && s.path in h.files)
    || Vouched(h, Render(s.cfg, a.routes).value, initial)
  }

  /** A publication, the first one included, keeps the tunnel safe exactly when it stops early, passes
      validation, restores a readable original, or writes bytes that were acceptable already. */
  lemma SafetyIsExact(s: Settings, h: Host, a: Attempt, initial: string)
    requires Safe(s, h, initial)
    ensures Safe(s, Publish(s, a.routes, h, a.backupPath, a.faults).host, initial) <==> Accepts(s, h, a, initial)
  {
    if Reaches(s, a.routes, h, a.faults) {
      var f, data := a.faults, Render(s.cfg, a.routes).value;
      var original := if f.read && s.path in h.files then Some(h.files[s.path]) else None;
      var saved := if original.Some? then Written(h, a.backupPath, original.value, true) else h;
      var summary := if original.Some? then a.backupPath else "";
      if original.Some? { WriteKeepsSafe(s, h, a.backupPath, original.value, true, initial); }
      if f.validate { ValidatedKeepsSafe(s, saved, data, original, summary, f, initial); }
      else { RejectedDecides(s, saved, data, original, summary, f, initial); }
      hide LoadsAreVetted, Vouched, Activate, Render, CredentialsFile;
    } else {
      EarlyStopKeepsFiles(s, a.routes, h, a.backupPath, a.faults);
      hide Publish, LoadsAreVetted, VettedBefore;
    }
  }

  /** A publication that stops early has at most copied the original. */
  lemma EarlyStopKeepsFiles(s: Settings, routes: seq<Route>, h: Host, backupPath: string, f: Faults)
    requires !Reaches(s, routes, h, f)
    ensures var p := Publish(s, routes, h, backupPath, f).host;
      && p.log == h.log && p.loaded == h.loaded && (s.path in p.files <==> s.path in h.files)
      && (s.path in h.files ==> p.files[s.path] == h.files[s.path])
  {
    hide Render, CredentialsFile, Activate;
  }

  predicate AllAccept(s: Settings, h: Host, attempts: seq<Attempt>, initial: string)
    decreases |attempts|
  {
    attempts != [] ==>
      var a := attempts[0];
      Accepts(s, h, a, initial)
        && AllAccept(s, Publish(s, a.routes, h, a.backupPath, a.faults).host, attempts[1..], initial)
  }

  predicate AlwaysSafe(s: Settings, h: Host, attempts: seq<Attempt>, initial: string)
    decreases |attempts|
  {
    && Safe(s, h, initial)
    && (attempts != [] ==>
          var a := attempts[0];
          AlwaysSafe(s, Publish(s, a.routes, h, a.backupPath, a.faults).host, attempts[1..], initial))
  }

  /** Over every run of publications with arbitrary routes and arbitrary failures, from the first one
      on a machine without the file, disk and tunnel hold only validated or initial bytes at every
      moment exactly if every attempt is accepted where it starts; then the tunnel never loads others. */
  lemma {:induction false} TunnelLoadsOnlyVettedBytes(s: Settings, h: Host, attempts: seq<Attempt>, initial: string)
    requires Safe(s, h, initial)
    ensures AlwaysSafe(s, h, attempts, initial) <==> AllAccept(s, h, attempts, initial)
    ensures AllAccept(s, h, attempts, initial) ==> LoadsAreVetted(PublishAll(s, h, attempts).log, initial)
    decreases |attempts|
  {
    hide Publish, Accepts, LoadsAreVetted, VettedBefore;
    if attempts != [] {
      var a := attempts[0];
      SafetyIsExact(s, h, a, initial);
      var next := Publish(s, a.routes, h, a.backupPath, a.faults).host;
      if Safe(s, next, initial) { TunnelLoadsOnlyVettedBytes(s, next, attempts[1..], initial); }
    }
  }

  /** With a file to go back to, it is enough that a rejected candidate can always be replaced by the
      original. */
  lemma {:induction false} WorkingRollbacksSuffice(s: Settings, h: Host, attempts: seq<Attempt>, initial: string)
    requires s.path in h.files
    requires forall i :: 0 <= i < |attempts| && attempts[i].faults.write && !attempts[i].faults.validate ==>
      attempts[i].faults.read && attempts[i].faults.rollback
    ensures AllAccept(s, h, attempts, initial)
    decreases |attempts|
  {
    if attempts != [] {
      var a := attempts[0];
      forall i | 0 <= i < |attempts[1..]| ensures attempts[1..][i] == attempts[i + 1] {}
      FileStays(s, a.routes, h, a.backupPath, a.faults);
      hide Publish, Render, CredentialsFile;
      WorkingRollbacksSuffice(s, Publish(s, a.routes, h, a.backupPath, a.faults).host, attempts[1..], initial);
    }
  }

  lemma FileStays(s: Settings, routes: seq<Route>, h: Host, backupPath: string, f: Faults)
    requires s.path in h.files
    ensures s.path in Publish(s, routes, h, backupPath, f).host.files
  {
    hide Render, CredentialsFile;
  }

  const SMOOTH := Faults(true, true, true, true, true, true, true, Reloaded, Reloaded)

  /** Without the rollback write a rejected candidate stays on disk, the next publication takes it for
      the original, and the recovery signal loads it. */
  lemma LostRollbackLoadsRejectedBytes()
    ensures exists s: Settings, h: Host, attempts: seq<Attempt> ::
      && s.path in h.files && h.files[s.path] == h.loaded && h.log == []
      && !LoadsAreVetted(PublishAll(s, h, attempts).log, h.loaded)
  {
    hide Render, CredentialsFile, PublishAll, LoadsAreVetted;
    var s := Settings(Some(SOME_CONFIG), "/config.yml", true);
    var h := Host(map["/config.yml" := "old"], "old", []);
    var bad := Attempt([SOME_ROUTE], "/backup", SMOOTH.(validate := false, rollback := false));
    var good := Attempt([], "/backup", SMOOTH.(hup := FailedIdle));
    TwoTexts();
    RejectedIsLoaded(s, h, bad, good);
  }

  /** The same without any lost write: the very first candidate is rejected, there is no original to
      restore, and the recovery of the second publication loads it. */
  lemma FirstCandidateLoadsRejectedBytes()
    ensures exists s: Settings, h: Host, attempts: seq<Attempt> ::
      && h.files == map[] && h.log == []
      && (forall i :: 0 <= i < |attempts| ==>
            attempts[i].faults.read && attempts[i].faults.write && attempts[i].faults.rollback)
      && !LoadsAreVetted(PublishAll(s, h, attempts).log, h.loaded)
  {
    hide Render, CredentialsFile, PublishAll, LoadsAreVetted;
    var s := Settings(Some(SOME_CONFIG), "/config.yml", true);
    var h := Host(map[], "old", []);
    var bad := Attempt([SOME_ROUTE], "/backup", SMOOTH.(validate := false));
    var good := Attempt([], "/backup", SMOOTH.(hup := FailedIdle));
    TwoTexts();
    RejectedIsLoaded(s, h, bad, good);
    var attempts := [bad, good];
    assert forall i :: 0 <= i < |attempts| ==>
        attempts[i].faults.read && attempts[i].faults.write && attempts[i].faults.rollback;
  }

  const SOME_CONFIG := OverlayConfig("example.com", "ui", "t", "/c.json", 18789, 20)

  const SOME_ROUTE := Route("gateway:a", "a", Gateway, "", 1, "a", true)

  /** The texts of one route and of none: both render, and their lengths differ. */
  lemma TwoTexts()
    ensures var cfg := Some(SOME_CONFIG);
      && CredentialsFile(cfg).Ok? && Render(cfg, [SOME_ROUTE]).Ok? && Render(cfg, []).Ok?
      && |Render(cfg, [SOME_ROUTE]).value| > |Render(cfg, []).value| > 3
  {
    TrimKeepsClean("t", IsSpace);
    TrimKeepsClean("a", IsSpace);
    TrimKeepsClean("/c.json", IsSpace);
    hide Trim, Itoa;
    assert [SOME_ROUTE][1..] == [] && "a" != "";
    assert CheckRoute(SOME_ROUTE).None? && FirstDefect([SOME_ROUTE]).None?;
    assert Enabled([SOME_ROUTE]) == [SOME_ROUTE] && Sort([SOME_ROUTE]) == [SOME_ROUTE];
    assert RulesText([SOME_ROUTE]) == RuleText(SOME_ROUTE) + "";
    assert |Header("t", "/c.json")| > 3;
  }

  /** A rejected candidate stays on disk: its rollback is lost, or there is nothing to roll back to. */
  predicate StaysRejected(s: Settings, h: Host, bad: Attempt) {
    || (s.path in h.files && bad.faults == SMOOTH.(validate := false, rollback := false))
    || (s.path !in h.files && bad.faults == SMOOTH.(validate := false))
  }

  /** The run behind both counterexamples, for any two candidates whose texts differ from each
      other and from the loaded bytes. */
  lemma RejectedIsLoaded(s: Settings, h: Host, bad: Attempt, good: Attempt)
    requires s.skipCredentialCheck && StaysRejected(s, h, bad) && h.log == []
    requires bad.backupPath == good.backupPath != s.path
    requires CredentialsFile(s.cfg).Ok? && Render(s.cfg, bad.routes).Ok? && Render(s.cfg, good.routes).Ok?
    requires Render(s.cfg, bad.routes).value != h.loaded
    requires Render(s.cfg, bad.routes).value != Render(s.cfg, good.routes).value
    requires good.faults == SMOOTH.(hup := FailedIdle)
    ensures !LoadsAreVetted(PublishAll(s, h, [bad, good]).log, h.loaded)
  {
    hide Render, CredentialsFile, LoadsAreVetted, StaysRejected;
    RejectedSteps(s, h, bad, good);
    var rejected, accepted := Render(s.cfg, bad.routes).value, Render(s.cfg, good.routes).value;
    var one := Publish(s, bad.routes, h, bad.backupPath, bad.faults).host;
    var two := Publish(s, good.routes, one, good.backupPath, good.faults).host;
    hide Publish;
    assert [bad, good][1..] == [good] && [good][1..] == [];
    assert PublishAll(s, h, [bad, good]) == PublishAll(s, one, [good]) == PublishAll(s, two, []) == two;
    UnvettedLoad(accepted, rejected, h.loaded);
  }

  lemma UnvettedLoad(accepted: string, rejected: string, initial: string)
    requires accepted != rejected && rejected != initial
    ensures !LoadsAreVetted([Vetted(accepted), Loaded(rejected)], initial)
  {
    assert [Vetted(accepted), Loaded(rejected)][1] == Loaded(rejected);
  }

  lemma RejectedSteps(s: Settings, h: Host, bad: Attempt, good: Attempt)
    requires s.skipCredentialCheck && StaysRejected(s, h, bad) && h.log == []
    requires bad.backupPath == good.backupPath != s.path
    requires CredentialsFile(s.cfg).Ok? && Render(s.cfg, bad.routes).Ok? && Render(s.cfg, good.routes).Ok?
    requires good.faults == SMOOTH.(hup := FailedIdle)
    ensures var one := Publish(s, bad.routes, h, bad.backupPath, bad.faults).host;
      Publish(s, good.routes, one, good.backupPath, good.faults).host.log
        == [Vetted(Render(s.cfg, good.routes).value), Loaded(Render(s.cfg, bad.routes).value)]
  {
    hide Render, CredentialsFile;
    var one := Publish(s, bad.routes, h, bad.backupPath, bad.faults).host;
    assert s.path in one.files && one.files[s.path] == Render(s.cfg, bad.routes).value && one.log == [];
  }

  // ----- Agreement of disk and tunnel -----

  predicate Agree(s: Settings, h: Host) {
    s.path in h.files && h.files[s.path] == h.loaded
  }

  /** The outcomes of the later steps under which disk and tunnel end up equal. */
  predicate Settles(f: Faults) {
    if !f.validate then f.read && f.rollback
    else match f.hup
      case Reloaded => true
      case FailedIdle => f.read && f.rollback
      case FailedReloaded => !f.read || !f.rollback || f.hupAgain != FailedIdle
  }

  /** From agreement, a publication ends in agreement exactly when it changes nothing or its
      later steps settle. */
  lemma AgreementIsExact(s: Settings, routes: seq<Route>, h: Host, backupPath: string, f: Faults)
    requires Agree(s, h) && backupPath != s.path
    ensures Agree(s, Publish(s, routes, h, backupPath, f).host)
      <==> !Reaches(s, routes, h, f) || Render(s.cfg, routes).value == h.loaded || Settles(f)
  {
    hide Render, CredentialsFile;
  }

  /** Without a file yet, they agree afterwards exactly if the candidate is written and loaded. */
  lemma FirstAgreementIsExact(s: Settings, routes: seq<Route>, h: Host, backupPath: string, f: Faults)
    requires s.path !in h.files
    ensures Agree(s, Publish(s, routes, h, backupPath, f).host) <==>
      && Reaches(s, routes, h, f)
      && (Render(s.cfg, routes).value == h.loaded || (f.validate && f.hup != FailedIdle))
  {
    hide Render, CredentialsFile;
  }

  /** The attempt stops before the write, renders what is loaded already, or settles. */
  predicate KeepsAgreement(s: Settings, h: Host, a: Attempt) {
    !Reaches(s, a.routes, h, a.faults) || Render(s.cfg, a.routes).value == h.loaded || Settles(a.faults)
  }

  predicate AllKeepAgreement(s: Settings, h: Host, attempts: seq<Attempt>)
    decreases |attempts|
  {
    attempts != [] ==>
      var a := attempts[0];
      KeepsAgreement(s, h, a)
        && AllKeepAgreement(s, Publish(s, a.routes, h, a.backupPath, a.faults).host, attempts[1..])
  }

  predicate AlwaysAgree(s: Settings, h: Host, attempts: seq<Attempt>)
    decreases |attempts|
  {
    && Agree(s, h)
    && (attempts != [] ==>
          var a := attempts[0];
          AlwaysAgree(s, Publish(s, a.routes, h, a.backupPath, a.faults).host, attempts[1..]))
  }

  /** Over every run from agreement, disk and tunnel agree at every moment exactly if each attempt stops
      before the write, renders what is loaded already, or settles: it succeeds, or its original can be
      restored and a failed signal either reloaded nothing or is followed by one that works. */
  lemma {:induction false} RunsKeepAgreement(s: Settings, h: Host, attempts: seq<Attempt>)
    requires Agree(s, h) && forall i :: 0 <= i < |attempts| ==> attempts[i].backupPath != s.path
    ensures AlwaysAgree(s, h, attempts) <==> AllKeepAgreement(s, h, attempts)
    ensures AllKeepAgreement(s, h, attempts) ==> Agree(s, PublishAll(s, h, attempts))
    decreases |attempts|
  {
    hide Publish, Reaches, Settles, Render;
    if attempts != [] {
      var a := attempts[0];
      AgreementIsExact(s, a.routes, h, a.backupPath, a.faults);
      forall i | 0 <= i < |attempts[1..]| ensures attempts[1..][i] == attempts[i + 1] {}
      var next := Publish(s, a.routes, h, a.backupPath, a.faults).host;
      if Agree(s, next) { RunsKeepAgreement(s, next, attempts[1..]); }
    }
  }

  /** Whatever happens later, a readable original is copied to the backup path, which the summary then
      names; without one the summary names none. No other file but the configuration changes. */
  lemma OriginalIsCopied(s: Settings, routes: seq<Route>, h: Host, backupPath: string, f: Faults)
    requires backupPath != s.path
    ensures var p := Publish(s, routes, h, backupPath, f);
      && p.summary.backupPath == (if Prepared(s, routes, h, f) && ReadsOriginal(s, h, f) then backupPath else "")
      && p.host.files - {s.path} ==
           if Prepared(s, routes, h, f) && ReadsOriginal(s, h, f) && f.mkdir && f.backup
           then (h.files - {s.path})[backupPath := h.files[s.path]] else h.files - {s.path}
  {
    hide Render, CredentialsFile;
  }

  /** The credentials file that publication looks for is the configured one, or the one named after the
      tunnel. */
  lemma CredentialsAreChecked(s: Settings, routes: seq<Route>, h: Host, backupPath: string, f: Faults)
    requires s.cfg.Some?
    ensures var file, tunnel := TrimSpace(s.cfg.value.credentialsFile), TrimSpace(s.cfg.value.tunnelId);
      Publish(s, routes, h, backupPath, f).err == Some(NoCredentials) <==>
        && !s.skipCredentialCheck && (file != "" || tunnel != "")
        && !(f.stat && (if file != "" then file else "/etc/cloudflared/" + tunnel + ".json") in h.files)
  {
    hide Render, TrimSpace;
  }

  /** The error names the first step that failed, and a rollback is reported exactly if there was an
      original to write back and writing it was not seen to fail. */
  lemma ErrorIsExact(s: Settings, routes: seq<Route>, h: Host, backupPath: string, f: Faults)
    ensures var p, original := Publish(s, routes, h, backupPath, f), ReadsOriginal(s, h, f);
      && (p.err.Some? && (p.err.value.Rendering? || p.err.value.NoCredentials?) <==> !Prepared(s, routes, h, f))
      && (p.err.Some? && p.err.value.Rendering? ==>
            p.err.value.cause == if CredentialsFile(s.cfg).Err? then CredentialsFile(s.cfg).error
                                 else Render(s.cfg, routes).error)
      && (Prepared(s, routes, h, f) ==>
            p.err == if original && !f.mkdir then Some(MkdirFailed)
                     else if original && !f.backup then Some(BackupFailed)
                     else if !f.write then Some(WriteFailed)
                     else if !f.validate then Some(ValidateFailed)
                     else if f.hup.Reloaded? then None
                     else if original && !f.rollback then Some(RollbackFailed) else Some(SighupFailed))
      && (p.summary.rolledBack <==>
            original && p.err.Some? && (p.err.value.ValidateFailed? || p.err.value.SighupFailed?))
  {
    hide Render, CredentialsFile;
  }

  /** Success means: the rendered text was validated, is on disk and is what the tunnel runs.
      Failure with a readable original and a working rollback leaves the file as it was. */
  lemma PublishOutcome(s: Settings, routes: seq<Route>, h: Host, backupPath: string, f: Faults)
    requires backupPath != s.path
    ensures var p := Publish(s, routes, h, backupPath, f);
      && (p.err.None? ==>
          && Render(s.cfg, routes).Ok? && s.path in p.host.files
          && p.host.files[s.path] == Render(s.cfg, routes).value == p.host.loaded
          && p.host.log == h.log + [Vetted(p.host.loaded), Loaded(p.host.loaded)])
      && (p.err.Some? && s.path in h.files && f.read && f.rollback ==>
          && s.path in p.host.files && p.host.files[s.path] == h.files[s.path])
      && (p.summary.rolledBack ==> p.err.Some?)
  {
    hide Render, CredentialsFile;
  }

  // ----- The manager object -----

  class Manager {
    const settings: Settings
    var files: map<string, string>
    var loaded: string
    ghost var log: seq<Event>

    ghost function View(): Host
      reads this
    {
      Host(files, loaded, log)
    }

    constructor (s: Settings, files: map<string, string>, loaded: string)
      ensures settings == s && View() == Host(files, loaded, [])
    {
      settings := s;
      this.files, this.loaded, log := files, loaded, [];
    }

    method WriteFile(path: string, data: string, works: bool) returns (ok: bool)
      modifies this`files
      ensures View() == Written(old(View()), path, data, works) && ok == works
    {
      if works { files := files[path := data]; }
      ok := works;
    }

    method SendReload(signal: Signal) returns (ok: bool)
      requires settings.path in files
      modifies this`loaded, this`log
      ensures View() == Signalled(old(View()), settings.path, signal) && ok == signal.Reloaded?
    {
      if signal != FailedIdle {
        loaded := files[settings.path];
        log := log + [Loaded(loaded)];
      }
      ok := signal.Reloaded?;
    }

    method PublishWithSummary(routes: seq<Route>, backupPath: string, f: Faults)
      returns (summary: Summary, err: Option<PublishError>)
      modifies this
      ensures Published(View(), summary, err) == Publish(settings, routes, old(View()), backupPath, f)
    {
      summary := Summary("", false);
      var path := settings.path;
      var credentials := CredentialsFile(settings.cfg);
      if credentials.Err? { return summary, Some(Rendering(credentials.error)); }
      if !settings.skipCredentialCheck {
        if !f.stat || credentials.value !in files { return summary, Some(NoCredentials); }
      }
      var data := RenderConfig(settings.cfg, routes);
      if data.Err? { return summary, Some(Rendering(data.error)); }
      var hasOriginal := f.read && path in files;
      var original := if hasOriginal then files[path] else "";
      if hasOriginal {
        summary := Summary(backupPath, false);
        if !f.mkdir { return summary, Some(MkdirFailed); }
        var saved := WriteFile(backupPath, original, f.backup);
        if !saved { return summary, Some(BackupFailed); }
      }
      var written := WriteFile(path, data.value, f.write);
      if !written { return summary, Some(WriteFailed); }
      if !f.validate {
        if hasOriginal {
          var _ := WriteFile(path, original, f.rollback);
          summary := summary.(rolledBack := true);
        }
        return summary, Some(ValidateFailed);
      }
      log := log + [Vetted(data.value)];
      var reloaded := SendReload(f.hup);
      if !reloaded {
        if hasOriginal {
          var restored := WriteFile(path, original, f.rollback);
          if !restored { return summary, Some(RollbackFailed); }
          summary := summary.(rolledBack := true);
          var _ := SendReload(f.hupAgain);
        }
        return summary, Some(SighupFailed);
      }
      err := None;
    }
  }
}
