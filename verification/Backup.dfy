/** Encrypted backups: the steps of creating one, and what is left when a step fails. */
module Backup {
  import opened Text
  import opened Words
  import opened State
  import opened Identity

  /** Where archives and the master key live, and the digest that is recorded. */
  datatype Settings = Settings(root: string, keyPath: string, digest: string -> string)

  datatype Error = Unknown(cause: StoreError) | EmptyKey | NoKey | CommandFailed | NoArchivePath
    | MkdirFailed | EncryptFailed | ReadFailed | RecordFailed

  /** The rows and the files. */
  datatype Vault = Vault(db: Db, files: map<string, string>)

  /** What the environment decides while one backup is created. `output` is what the backup
      command prints, if it succeeds; `archive` is what encryption leaves at the destination,
      whether or not it succeeds. */
  datatype Env = Env(readKey: bool, random: bool, newKey: string, writeKey: bool, output: Option<string>,
                     stamp: string, mkdir: bool, encrypts: bool, archive: Option<string>,
                     readBack: bool, records: bool, cleanup: bool)

  datatype Created = Created(vault: Vault, result: Result<State.Backup, Error>)

  // ----- The archive path in the output of the backup command -----

  /** The last word of the output. */
  function ArchivePath(stdout: string): Option<string> {
    if Fields(stdout) == [] then None else Some(Fields(stdout)[|Fields(stdout)| - 1])
  }

  function Reversed(s: seq<string>): (r: seq<string>)
    ensures |r| == |s| && forall i :: 0 <= i < |s| ==> r[i] == s[|s| - 1 - i]
  {
    seq(|s|, i requires 0 <= i < |s| => s[|s| - 1 - i])
  }

  method ReverseLines(lines: array<string>)
    modifies lines
    ensures lines[..] == Reversed(old(lines[..]))
  {
    var n, i := lines.Length, 0;
    while i < n / 2
      invariant 0 <= i <= n / 2
      invariant forall k :: 0 <= k < i ==> lines[k] == old(lines[n - 1 - k]) && lines[n - 1 - k] == old(lines[k])
      invariant forall k :: i <= k < n - i ==> lines[k] == old(lines[k])
    {
      lines[i], lines[n - 1 - i] := lines[n - 1 - i], lines[i];
      i := i + 1;
    }
  }

  lemma {:induction false} BlankTail(lines: seq<string>)
    requires forall i :: 0 <= i < |lines| ==> Fields(lines[i]) == []
    ensures AllFields(lines) == []
  {
    if lines != [] { BlankTail(lines[1..]); }
  }

  lemma Associative<T>(a: seq<T>, b: seq<T>, c: seq<T>)
    ensures a + (b + c) == a + b + c
  {}

  lemma {:induction false} AllFieldsSplit(a: seq<string>, b: seq<string>)
    ensures AllFields(a + b) == AllFields(a) + AllFields(b)
  {
    hide Fields;
    if a == [] {
      assert a + b == b;
    } else {
      AllFieldsSplit(a[1..], b);
      assert (a + b)[0] == a[0] && (a + b)[1..] == a[1..] + b;
      Associative(Fields(a[0]), AllFields(a[1..]), AllFields(b));
    }
  }

  /** From line `k` on there are no words. */
  predicate BlankFrom(lines: seq<string>, k: int) {
    forall i :: 0 <= k <= i < |lines| ==> Fields(lines[i]) == []
  }

  lemma BlankEnd(lines: seq<string>)
    ensures BlankFrom(lines, |lines|)
  {}

  lemma BlankStep(lines: seq<string>, k: nat)
    requires k < |lines| && BlankFrom(lines, k + 1) && Fields(lines[k]) == []
    ensures BlankFrom(lines, k)
  {}

  lemma NoWordsFrom(lines: seq<string>, k: nat)
    requires k <= |lines| && BlankFrom(lines, k)
    ensures AllFields(lines) == AllFields(lines[..k])
  {
    assert lines == lines[..k] + lines[k..];
    AllFieldsSplit(lines[..k], lines[k..]);
    BlankTail(lines[k..]);
  }

  lemma WordsOfLines(stdout: string, lines: seq<string>)
    requires lines == Split(stdout, '\n')
    ensures Fields(stdout) == AllFields(lines)
  {
    JoinSplit(stdout, '\n');
    FieldsOfLines(lines);
  }

  /** The last word of the last line that is not blank is the last word of the output. */
  lemma LastWord(stdout: string, lines: seq<string>, n: nat)
    requires lines == Split(stdout, '\n') && n < |lines|
    requires Fields(lines[n]) != [] && BlankFrom(lines, n + 1)
    ensures ArchivePath(stdout) == Some(Fields(lines[n])[|Fields(lines[n])| - 1])
  {
    WordsOfLines(stdout, lines);
    hide Split, BlankFrom;
    NoWordsFrom(lines, n + 1);
    WordsUpTo(lines, n);
    hide Fields, AllFields;
  }

  lemma WordsUpTo(lines: seq<string>, n: nat)
    requires n < |lines|
    ensures AllFields(lines[..n + 1]) == AllFields(lines[..n]) + Fields(lines[n])
  {
    hide Fields;
    assert lines[..n + 1] == lines[..n] + [lines[n]];
    AllFieldsSplit(lines[..n], [lines[n]]);
    assert AllFields([lines[n]]) == Fields(lines[n]) + AllFields([]) == Fields(lines[n]);
  }

  lemma NoLastWord(stdout: string, lines: seq<string>)
    requires lines == Split(stdout, '\n') && BlankFrom(lines, 0)
    ensures ArchivePath(stdout) == None
  {
    hide Fields, Split;
    WordsOfLines(stdout, lines);
    NoWordsFrom(lines, 0);
  }

  method ParseBackupPath(stdout: string) returns (r: Result<string, Error>)
    ensures r == if ArchivePath(stdout).Some? then Ok(ArchivePath(stdout).value) else Err(NoArchivePath)
  {
    hide Fields, Split, Trim, ArchivePath, BlankFrom;
    var parts := Split(stdout, '\n');
    var lines := new string[|parts|](i requires 0 <= i < |parts| => parts[i]);
    assert lines[..] == parts;
    ReverseLines(lines);
    BlankEnd(parts);
    var reversed := lines[..];
    for i := 0 to |reversed|
      invariant BlankFrom(parts, |parts| - i)
    {
      assert reversed[i] == parts[|parts| - 1 - i];
      FieldsTrim(reversed[i]);
      var line := TrimSpace(reversed[i]);
      NoFields();
      if Fields(line) == [] { BlankStep(parts, |parts| - 1 - i); }
      if line == "" { continue; }
      var fields := Fields(line);
      if |fields| == 0 { continue; }
      LastWord(stdout, parts, |parts| - 1 - i);
      return Ok(fields[|fields| - 1]);
    }
    NoLastWord(stdout, parts);
    return Err(NoArchivePath);
  }

  // ----- Creating a backup -----

  function IdOf(username: string, stamp: string): string { username + "-" + stamp }

  function DirOf(s: Settings, username: string): string { s.root + "/" + username }

  function PathOf(s: Settings, username: string, stamp: string): string {
    DirOf(s, username) + "/" + stamp + ".tar.gz.enc"
  }

  datatype Keyed = Keyed(files: map<string, string>, err: Option<Error>)

  /** A key that can be read must not be blank; one that cannot is generated. */
  function EnsureKey(s: Settings, files: map<string, string>, e: Env): Keyed {
    if e.readKey && s.keyPath in files then
      Keyed(files, if TrimSpace(files[s.keyPath]) == "" then Some(EmptyKey) else None)
    else if !e.random || !e.writeKey then Keyed(files, Some(NoKey))
    else Keyed(files[s.keyPath := e.newKey], None)
  }

  function Encrypted(files: map<string, string>, dest: string, archive: Option<string>): map<string, string> {
    if archive.Some? then files[dest := archive.value] else files
  }

  function CleanedUp(files: map<string, string>, dest: string, works: bool): map<string, string> {
    if works then files - {dest} else files
  }

  function Refused(v: Vault, e: Error): Created { Created(v, Err(e)) }

  /** The row that describes an archive. */
  function RowFor(s: Settings, username: string, stamp: string, data: string): State.Backup {
    State.Backup(IdOf(username, stamp), username, stamp, |data|, s.digest(data), true, PathOf(s, username, stamp))
  }

  /** From encryption on: a failure removes what is at the destination. */
  function Archive(s: Settings, v: Vault, username: string, e: Env): Created {
    var dest := PathOf(s, username, e.stamp);
    var files := Encrypted(v.files, dest, e.archive);
    var undone := v.(files := CleanedUp(files, dest, e.cleanup));
    if !e.encrypts then Refused(undone, EncryptFailed)
    else if !e.readBack || dest !in files then Refused(undone, ReadFailed)
    else if !e.records then Refused(undone, RecordFailed)
    else
      var row := RowFor(s, username, e.stamp, files[dest]);
      Created(Vault(PutBackup(v.db, row).db, files), Ok(row))
  }

  /** Up to encryption: no archive is touched. */
  function Prepare(s: Settings, v: Vault, username: string, e: Env): Keyed {
    if username !in v.db.users then Keyed(v.files, Some(Unknown(NoUser)))
    else
      var k := EnsureKey(s, v.files, e);
      if k.err.Some? then k
      else if e.output.None? then k.(err := Some(CommandFailed))
      else if ArchivePath(e.output.value).None? then k.(err := Some(NoArchivePath))
      else if !e.mkdir then k.(err := Some(MkdirFailed))
      else k
  }

  function CreateBackup(s: Settings, v: Vault, raw: string, e: Env): Created {
    var username := TrimSpace(raw);
    var p := Prepare(s, v, username, e);
    var prepared := v.(files := p.files);
    if p.err.Some? then Refused(prepared, p.err.value) else Archive(s, prepared, username, e)
  }

  // ----- Names of archives -----

  predicate StampChar(c: char) { IsDigit(c) || c == 'T' || c == 'Z' }

  predicate IsStamp(stamp: string) { forall i :: 0 <= i < |stamp| ==> StampChar(stamp[i]) }

  /** Backup IDs determine user and time stamp. */
  lemma IdsDiffer(u: string, a: string, v: string, b: string)
    requires IsStamp(a) && IsStamp(b)
    ensures IdOf(u, a) == IdOf(v, b) <==> u == v && a == b
  {
    if IdOf(u, a) == IdOf(v, b) {
      LastHyphen(u, a);
      LastHyphen(v, b);
      assert |u| == |v|;
      assert u == IdOf(u, a)[..|u|] == IdOf(v, b)[..|v|] == v;
      assert a == IdOf(u, a)[|u| + 1..] == IdOf(v, b)[|v| + 1..] == b;
    }
  }

  lemma LastHyphen(u: string, a: string)
    requires IsStamp(a)
    ensures IdOf(u, a)[|u|] == '-' && forall i :: |u| < i < |IdOf(u, a)| ==> IdOf(u, a)[i] != '-'
  {
    forall i | |u| < i < |IdOf(u, a)| ensures IdOf(u, a)[i] != '-' {
      assert IdOf(u, a)[i] == a[i - |u| - 1] && StampChar(a[i - |u| - 1]);
    }
  }

  /** Archive paths determine user and time stamp. */
  lemma PathsDiffer(s: Settings, u: string, a: string, v: string, b: string)
    requires ValidUsername(u) && ValidUsername(v)
    ensures PathOf(s, u, a) == PathOf(s, v, b) <==> u == v && a == b
  {
    if PathOf(s, u, a) == PathOf(s, v, b) {
      ValidUsernameHasNoSeparators(u);
      ValidUsernameHasNoSeparators(v);
      hide ValidUsername;
      var front, back := s.root + "/", ".tar.gz.enc";
      assert PathOf(s, u, a) == front + (u + ['/'] + (a + back));
      assert PathOf(s, v, b) == front + (v + ['/'] + (b + back));
      SameStart(front, u + ['/'] + (a + back), v + ['/'] + (b + back));
      FirstPieceUnique(u, v, '/', a + back, b + back);
      SameEnding(a, b, back);
    }
  }

  lemma SameStart(front: string, a: string, b: string)
    requires front + a == front + b
    ensures a == b
  {
    assert a == (front + a)[|front|..] == (front + b)[|front|..] == b;
  }

  /** The key is not an archive. */
  predicate KeyApart(s: Settings) { !HasPrefix(s.keyPath, s.root + "/") }

  lemma PathIsNotKey(s: Settings, username: string, stamp: string)
    requires KeyApart(s)
    ensures PathOf(s, username, stamp) != s.keyPath
  {
    assert PathOf(s, username, stamp)[..|s.root| + 1] == s.root + "/";
  }

  // ----- Outcomes -----

  /** Nothing but the master key differs. */
  predicate SameArchives(s: Settings, a: map<string, string>, b: map<string, string>) {
    a - {s.keyPath} == b - {s.keyPath}
  }

  lemma PrepareTouchesOnlyKey(s: Settings, v: Vault, username: string, e: Env)
    ensures SameArchives(s, Prepare(s, v, username, e).files, v.files)
  {}

  /** What is at the destination when a failed encryption has been cleaned up, or not. */
  function LeftAt(files: map<string, string>, dest: string, e: Env): Option<string> {
    if e.cleanup then None
    else if e.archive.Some? then e.archive
    else if dest in files then Some(files[dest]) else None
  }

  /** A success records one row, whose size and digest are those of the file it names, and
      touches no other row and no other archive. */
  lemma SuccessMatchesItsFile(s: Settings, v: Vault, raw: string, e: Env)
    requires KeyApart(s) && CreateBackup(s, v, raw, e).result.Ok?
    ensures var after := CreateBackup(s, v, raw, e).vault;
      var row := CreateBackup(s, v, raw, e).result.value;
      && row.id == IdOf(TrimSpace(raw), e.stamp) && row.path == PathOf(s, TrimSpace(raw), e.stamp)
      && row.path in after.files && row.size == |after.files[row.path]| && row.sha256 == s.digest(after.files[row.path])
      && after.db == v.db.(backups := v.db.backups[row.id := row])
      && SameArchives(s, after.files - {row.path}, v.files - {row.path})
      && s.keyPath in after.files
  {
    hide PathOf, IdOf, TrimSpace, ArchivePath, KeyApart;
    PathIsNotKey(s, TrimSpace(raw), e.stamp);
    PrepareTouchesOnlyKey(s, v, TrimSpace(raw), e);
  }

  /** A failure changes no row. It leaves the archives as they were exactly when it came before
      encryption or what is now at the destination, usually nothing, was there before. */
  lemma FailureIsExact(s: Settings, v: Vault, raw: string, e: Env)
    requires KeyApart(s) && CreateBackup(s, v, raw, e).result.Err?
    ensures var after := CreateBackup(s, v, raw, e).vault;
      var dest := PathOf(s, TrimSpace(raw), e.stamp);
      && after.db == v.db
      && (SameArchives(s, after.files, v.files) <==>
          || Prepare(s, v, TrimSpace(raw), e).err.Some?
          || LeftAt(v.files, dest, e) == (if dest in v.files then Some(v.files[dest]) else None))
  {
    var username := TrimSpace(raw);
    PathIsNotKey(s, username, e.stamp);
    PrepareTouchesOnlyKey(s, v, username, e);
    hide PathOf, IdOf, TrimSpace, KeyApart;
    var prepared := Prepare(s, v, username, e);
    hide Prepare;
    var dest := PathOf(s, username, e.stamp);
    if prepared.err.None? {
      DestinationDecides(s, prepared.files, v.files, CreateBackup(s, v, raw, e).vault.files, dest,
          LeftAt(v.files, dest, e));
    }
  }

  /** Two file maps that agree everywhere but at one path agree there or not at all. */
  lemma DestinationDecides(s: Settings, prepared: map<string, string>, before: map<string, string>,
      after: map<string, string>,
                           dest: string, left: Option<string>)
    requires SameArchives(s, prepared, before) && dest != s.keyPath
    requires after - {dest} == prepared - {dest}
    requires left == if dest in after then Some(after[dest]) else None
    ensures SameArchives(s, after, before) <==> left == if dest in before then Some(before[dest]) else None
  {
    var a, b := after - {s.keyPath}, before - {s.keyPath};
    assert dest in a <==> dest in after;
    assert dest in b <==> dest in before;
    forall p | p != dest ensures p in a <==> p in b {
      assert p in a <==> p in (after - {dest}) - {s.keyPath};
      assert p in b <==> p in prepared - {s.keyPath};
    }
    forall p | p in a && p in b && p != dest ensures a[p] == b[p] {
      assert (after - {dest})[p] == (prepared - {dest})[p];
      assert (prepared - {s.keyPath})[p] == b[p];
    }
    if left == if dest in before then Some(before[dest]) else None { assert a == b; }
  }

  /** The master key is replaced exactly if it is missing or cannot be read just then, for whatever
      reason; an archive is only ever made with a key that is not blank. */
  lemma KeyIsReplacedExactly(s: Settings, v: Vault, raw: string, e: Env)
    requires KeyApart(s)
    ensures var after := CreateBackup(s, v, raw, e).vault.files;
      var replaced := TrimSpace(raw) in v.db.users && (!e.readKey || s.keyPath !in v.files) && e.random && e.writeKey;
      && (s.keyPath in after <==> replaced || s.keyPath in v.files)
      && (s.keyPath in after ==> after[s.keyPath] == if replaced then e.newKey else v.files[s.keyPath])
      && (Prepare(s, v, TrimSpace(raw), e).err.None? && TrimSpace(e.newKey) != "" ==>
            s.keyPath in after && TrimSpace(after[s.keyPath]) != "")
  {
    hide PathOf, IdOf, Trim, ArchivePath, KeyApart;
    PathIsNotKey(s, TrimSpace(raw), e.stamp);
  }

  /** What is at the destination for a backup to describe. */
  function Produced(files: map<string, string>, dest: string, e: Env): Option<string> {
    if e.archive.Some? then e.archive else if dest in files then Some(files[dest]) else None
  }

  /** The result of creating a backup, for every input: the error of the first step that fails, or a row
      for an encrypted archive of this user at this time, with its size and digest. */
  lemma CreationIsExact(s: Settings, v: Vault, raw: string, e: Env)
    requires KeyApart(s)
    ensures var username, readable := TrimSpace(raw), e.readKey && s.keyPath in v.files;
      var dest := s.root + "/" + username + "/" + e.stamp + ".tar.gz.enc";
      var produced := Produced(v.files, dest, e);
      CreateBackup(s, v, raw, e).result ==
        if username !in v.db.users then Err(Unknown(NoUser))
        else if readable && TrimSpace(v.files[s.keyPath]) == "" then Err(EmptyKey)
        else if !readable && !(e.random && e.writeKey) then Err(NoKey)
        else if e.output.None? then Err(CommandFailed)
        else if Fields(e.output.value) == [] then Err(NoArchivePath)
        else if !e.mkdir then Err(MkdirFailed)
        else if !e.encrypts then Err(EncryptFailed)
        else if !e.readBack || produced.None? then Err(ReadFailed)
        else if !e.records then Err(RecordFailed)
        else Ok(State.Backup(username + "-" + e.stamp, username, e.stamp, |produced.value|, s.digest(produced.value),
                             true, dest))
  {
    PathIsNotKey(s, TrimSpace(raw), e.stamp);
    assert PathOf(s, TrimSpace(raw), e.stamp) == s.root + "/" + TrimSpace(raw) + "/" + e.stamp + ".tar.gz.enc";
    hide PathOf, KeyApart, Trim, Fields;
  }

  /** At most one backup row is written, and nothing else in the tables. */
  lemma OnlyBackupsChange(s: Settings, v: Vault, raw: string, e: Env)
    ensures var c := CreateBackup(s, v, raw, e);
      c.vault.db == v.db || (c.result.Ok? && c.vault.db == PutBackup(v.db, c.result.value).db
        && c.result.value.ts == e.stamp)
  {
    hide PathOf, IdOf, TrimSpace, ArchivePath;
  }

  // ----- Archives over time -----

  /** The row's file is there and is what the row says. */
  predicate RowHolds(s: Settings, files: map<string, string>, b: State.Backup) {
    && ValidUsername(b.username) && IsStamp(b.ts)
    && b.id == IdOf(b.username, b.ts) && b.path == PathOf(s, b.username, b.ts)
    && b.path in files && b.size == |files[b.path]| && b.sha256 == s.digest(files[b.path])
  }

  predicate Archived(s: Settings, v: Vault) {
    forall id :: id in v.db.backups ==> v.db.backups[id].id == id && RowHolds(s, v.files, v.db.backups[id])
  }

  /** What is left at the destination still has the size and the digest of what was there. */
  predicate Survives(s: Settings, files: map<string, string>, dest: string, e: Env) {
    && dest in files && LeftAt(files, dest, e).Some?
    && |LeftAt(files, dest, e).value| == |files[dest]|
    && s.digest(LeftAt(files, dest, e).value) == s.digest(files[dest])
  }

  lemma RowsAwayHold(s: Settings, v: Vault, b: State.Backup, files: map<string, string>, dest: string)
    requires RowHolds(s, v.files, b) && b.path != dest
    requires forall p :: p != s.keyPath && p != dest ==> SameFile(files, v.files, p)
    requires KeyApart(s)
    ensures RowHolds(s, files, b)
  {
    PathIsNotKey(s, b.username, b.ts);
    hide ValidUsername, IdOf, PathOf, IsStamp, KeyApart;
    assert SameFile(files, v.files, b.path);
  }

  /** Every step from encryption on works, and there is a file to read back. */
  predicate Completes(files: map<string, string>, dest: string, e: Env) {
    e.encrypts && e.readBack && e.records && (e.archive.Some? || dest in files)
  }

  lemma CompletesExactly(s: Settings, v: Vault, raw: string, e: Env)
    requires KeyApart(s)
    ensures CreateBackup(s, v, raw, e).result.Ok? <==>
      Prepare(s, v, TrimSpace(raw), e).err.None? && Completes(v.files, PathOf(s, TrimSpace(raw), e.stamp), e)
  {
    PathIsNotKey(s, TrimSpace(raw), e.stamp);
    PrepareTouchesOnlyKey(s, v, TrimSpace(raw), e);
    hide PathOf, TrimSpace, KeyApart, ArchivePath;
  }

  /** Every row keeps matching its file exactly when the attempt can complete, stops before
      encryption, uses a stamp the user has no row for, or leaves an archive like the earlier one. */
  lemma ArchivedIsExact(s: Settings, v: Vault, raw: string, e: Env)
    requires Archived(s, v) && KeyApart(s) && IsStamp(e.stamp) && forall u :: u in v.db.users ==> ValidUsername(u)
    ensures var username := TrimSpace(raw);
      Archived(s, CreateBackup(s, v, raw, e).vault) <==>
        || Completes(v.files, PathOf(s, username, e.stamp), e)
        || Prepare(s, v, username, e).err.Some?
        || IdOf(username, e.stamp) !in v.db.backups
        || Survives(s, v.files, PathOf(s, username, e.stamp), e)
  {
    var username, after := TrimSpace(raw), CreateBackup(s, v, raw, e).vault;
    var dest := PathOf(s, username, e.stamp);
    PathIsNotKey(s, username, e.stamp);
    FilesElsewhere(s, v, raw, e);
    CompletesExactly(s, v, raw, e);
    hide Completes;
    if Prepare(s, v, username, e).err.Some? {
      PrepareKeepsArchived(s, v, raw, e);
    } else {
      ValidHere(s, v, username, e);
      forall id | id in v.db.backups && id != IdOf(username, e.stamp)
        ensures RowHolds(s, after.files, v.db.backups[id])
      {
        var b := v.db.backups[id];
        RowsApart(s, b, username, e.stamp);
        RowsAwayHold(s, v, b, after.files, dest);
      }
      if CreateBackup(s, v, raw, e).result.Ok? {
        SuccessMatchesItsFile(s, v, raw, e);
        hide CreateBackup, PathOf, IdOf, ValidUsername, IsStamp, Prepare;
      } else if IdOf(username, e.stamp) in v.db.backups {
        SameRowSameFile(s, v, username, e.stamp);
        LeftAtDest(s, v, raw, e);
        FailureIsExact(s, v, raw, e);
        hide CreateBackup, PathOf, IdOf, ValidUsername, IsStamp, Prepare, LeftAt;
      } else {
        FailureIsExact(s, v, raw, e);
        hide CreateBackup, PathOf, IdOf, ValidUsername, IsStamp, Prepare, LeftAt, RowHolds;
      }
    }
  }

  lemma ValidHere(s: Settings, v: Vault, username: string, e: Env)
    requires Prepare(s, v, username, e).err.None? && forall u :: u in v.db.users ==> ValidUsername(u)
    ensures ValidUsername(username)
  {
    hide ValidUsername;
  }

  lemma PrepareKeepsArchived(s: Settings, v: Vault, raw: string, e: Env)
    requires Archived(s, v) && KeyApart(s) && Prepare(s, v, TrimSpace(raw), e).err.Some?
    ensures Archived(s, CreateBackup(s, v, raw, e).vault)
  {
    var after := CreateBackup(s, v, raw, e).vault;
    assert after.db == v.db;
    FilesElsewhere(s, v, raw, e);
    forall id | id in v.db.backups ensures RowHolds(s, after.files, v.db.backups[id]) {
      var b := v.db.backups[id];
      PathIsNotKey(s, b.username, b.ts);
      RowsAwayHold(s, v, b, after.files, s.keyPath);
    }
  }

  /** A row with another ID names another file. */
  lemma RowsApart(s: Settings, b: State.Backup, username: string, stamp: string)
    requires ValidUsername(b.username) && ValidUsername(username) && IsStamp(b.ts) && IsStamp(stamp)
    requires b.id == IdOf(b.username, b.ts) && b.path == PathOf(s, b.username, b.ts)
    ensures b.path == PathOf(s, username, stamp) <==> b.id == IdOf(username, stamp)
  {
    IdsDiffer(b.username, b.ts, username, stamp);
    PathsDiffer(s, b.username, b.ts, username, stamp);
  }

  lemma SameRowSameFile(s: Settings, v: Vault, username: string, stamp: string)
    requires Archived(s, v) && IdOf(username, stamp) in v.db.backups && ValidUsername(username) && IsStamp(stamp)
    ensures v.db.backups[IdOf(username, stamp)].path == PathOf(s, username, stamp)
  {
    RowsApart(s, v.db.backups[IdOf(username, stamp)], username, stamp);
  }

  predicate SameFile(a: map<string, string>, b: map<string, string>, path: string) {
    (path in a <==> path in b) && (path in a ==> a[path] == b[path])
  }

  /** Away from the key and the destination no file changes; before encryption not even there. */
  lemma FilesElsewhere(s: Settings, v: Vault, raw: string, e: Env)
    ensures var files := CreateBackup(s, v, raw, e).vault.files;
      var dest := PathOf(s, TrimSpace(raw), e.stamp);
      && (forall p :: p != s.keyPath && p != dest ==> SameFile(files, v.files, p))
      && (Prepare(s, v, TrimSpace(raw), e).err.Some? ==> forall p :: p != s.keyPath ==> SameFile(files, v.files, p))
  {
    hide PathOf, TrimSpace, ArchivePath;
    var prepared := Prepare(s, v, TrimSpace(raw), e);
    forall p | p != s.keyPath ensures SameFile(prepared.files, v.files, p) {}
    hide Prepare;
    if prepared.err.None? { FilesAwayFromDest(s, v.(files := prepared.files), TrimSpace(raw), e); }
  }

  lemma FilesAwayFromDest(s: Settings, v: Vault, username: string, e: Env)
    ensures forall p :: p != PathOf(s, username, e.stamp) ==>
          SameFile(Archive(s, v, username, e).vault.files, v.files, p)
  {
    hide PathOf;
  }

  lemma LeftAtDest(s: Settings, v: Vault, raw: string, e: Env)
    requires KeyApart(s) && CreateBackup(s, v, raw, e).result.Err? && Prepare(s, v, TrimSpace(raw), e).err.None?
    ensures var files := CreateBackup(s, v, raw, e).vault.files;
      var dest := PathOf(s, TrimSpace(raw), e.stamp);
      LeftAt(v.files, dest, e) == if dest in files then Some(files[dest]) else None
  {
    PathIsNotKey(s, TrimSpace(raw), e.stamp);
    hide PathOf, TrimSpace, ArchivePath, KeyApart;
  }

  // ----- The backup manager -----

  class Manager {
    const settings: Settings
    const store: Store
    var files: map<string, string>

    constructor (s: Settings, store: Store, files: map<string, string>)
      ensures settings == s && this.store == store && this.files == files
    {
      settings := s;
      this.store, this.files := store, files;
    }

    ghost function View(): Vault
      reads this, store
    {
      Vault(store.View(), files)
    }

    method EnsureMasterKey(e: Env) returns (err: Option<Error>)
      modifies this
      ensures Keyed(files, err) == EnsureKey(settings, old(files), e)
    {
      if e.readKey && settings.keyPath in files {
        if TrimSpace(files[settings.keyPath]) == "" { return Some(EmptyKey); }
        return None;
      }
      if !e.random || !e.writeKey { return Some(NoKey); }
      files := files[settings.keyPath := e.newKey];
      return None;
    }

    method Remove(path: string, works: bool)
      modifies this
      ensures files == CleanedUp(old(files), path, works)
    {
      if works { files := files - {path}; }
    }

    method Create(raw: string, e: Env) returns (r: Result<State.Backup, Error>)
      modifies this, store
      ensures Created(View(), r) == CreateBackup(settings, old(View()), raw, e)
    {
      var username := TrimSpace(raw);
      var user := store.GetUser(username);
      if user.Err? { return Err(Unknown(user.error)); }
      var keyed := EnsureMasterKey(e);
      if keyed.Some? { return Err(keyed.value); }
      if e.output.None? { return Err(CommandFailed); }
      var source := ParseBackupPath(e.output.value);
      if source.Err? { return Err(source.error); }
      var dest := PathOf(settings, username, e.stamp);
      if !e.mkdir { return Err(MkdirFailed); }
      files := Encrypted(files, dest, e.archive);
      if !e.encrypts {
        Remove(dest, e.cleanup);
        return Err(EncryptFailed);
      }
      if !e.readBack || dest !in files {
        Remove(dest, e.cleanup);
        return Err(ReadFailed);
      }
      var row := RowFor(settings, username, e.stamp, files[dest]);
      if !e.records {
        Remove(dest, e.cleanup);
        return Err(RecordFailed);
      }
      var _ := store.UpsertBackup(row);
      return Ok(row);
    }
  }
}
