/** The watcher's event loop: a burst of configuration events causes one synchronisation. */
module Debounce {
  import opened Text

  // ----- The loop as a machine -----

  /** A stopped timer, a running one, and one whose tick waits to be received. Setting the timer
      discards a waiting tick. */
  datatype Timer = Stopped | Armed | Fired

  /** What the select statement finds, or the passing of the debounce interval. A closed channel
      delivers without a value. */
  datatype Input =
    | Cancelled
    | Event(path: Option<string>)
    | SourceError(err: Option<string>)
    | TickReceived(syncs: bool)
    | Elapsed

  datatype Exit = Stays | ReturnsError | ReturnsOk

  datatype Entry = SyncStart | ConfigEvent | Interval | Reported

  datatype State = State(pending: bool, timer: Timer, log: seq<Entry>, exit: Exit)

  /** The part of a path behind the last slash, ignoring slashes at the end. */
  function Base(path: string): string {
    if path == "" then "."
    else
      var p := StripSlashes(path);
      if p == "" then "/" else LastElement(p)
  }

  function StripSlashes(path: string): string {
    if path != "" && path[|path| - 1] == '/' then StripSlashes(path[..|path| - 1]) else path
  }

  function LastElement(path: string): string {
    if path == "" || path[|path| - 1] == '/' then "" else LastElement(path[..|path| - 1]) + [path[|path| - 1]]
  }

  /** The first synchronisation happens before the loop; if it fails the loop never starts. */
  function Begin(syncs: bool): State {
    State(false, Stopped, [SyncStart], if syncs then Stays else ReturnsError)
  }

  function Step(configPath: string, s: State, i: Input): State {
    if s.exit != Stays then s
    else match i
      case Cancelled => s.(exit := ReturnsError)
      case Event(path) =>
        if path.None? then s.(exit := ReturnsOk)
        else if Base(path.value) != Base(configPath) then s
        else s.(pending := true, timer := Armed, log := s.log + [ConfigEvent])
      case SourceError(err) =>
        if err.None? then s.(exit := ReturnsOk) else s.(log := s.log + [Reported])
      case TickReceived(syncs) =>
        if s.timer != Fired then s
        else if !s.pending then s.(timer := Stopped)
        else s.(timer := Stopped, pending := false, log := s.log + [SyncStart] + if syncs then [] else [Reported])
      case Elapsed => if s.timer == Armed then s.(timer := Fired, log := s.log + [Interval]) else s
  }

  function Run(configPath: string, s: State, inputs: seq<Input>): State
    decreases |inputs|
  {
    if inputs == [] then s else Run(configPath, Step(configPath, s, inputs[0]), inputs[1..])
  }

  // ----- The invariant -----

  function Count(log: seq<Entry>, e: Entry): nat {
    if log == [] then 0 else Count(log[..|log| - 1], e) + if log[|log| - 1] == e then 1 else 0
  }

  /** Entry `p` is followed by a synchronisation. */
  predicate Served(log: seq<Entry>, p: nat) {
    exists q :: p < q < |log| && log[q] == SyncStart
  }

  /** The debounce interval passed, and since then nothing but errors was seen. */
  predicate Quiet(log: seq<Entry>, n: nat) {
    exists r :: 0 <= r < n && r < |log| && log[r] == Interval && forall j :: r < j < n && j < |log| ==>
          log[j] == Reported
  }

  /** Every configuration event is followed by a synchronisation, or one is still due. */
  predicate NothingLost(s: State) {
    s.pending || forall p :: 0 <= p < |s.log| && s.log[p] == ConfigEvent ==> Served(s.log, p)
  }

  /** Every synchronisation but the first waits for a quiet interval. */
  predicate Debounced(log: seq<Entry>) {
    forall q :: 0 < q < |log| && log[q] == SyncStart ==> Quiet(log, q)
  }

  predicate Invariant(s: State) {
    && (s.pending <==> s.timer != Stopped)
    && (s.timer == Fired ==> Quiet(s.log, |s.log|))
    && s.log != [] && NothingLost(s) && Debounced(s.log)
    && Count(s.log, SyncStart) + (if s.pending then 1 else 0) <= 1 + Count(s.log, ConfigEvent)
  }

  lemma CountSnoc(log: seq<Entry>, x: Entry, e: Entry)
    ensures Count(log + [x], e) == Count(log, e) + if x == e then 1 else 0
  {
    assert (log + [x])[..|log|] == log;
  }

  lemma QuietGrows(log: seq<Entry>, n: nat, e: Entry)
    requires n <= |log|
    ensures Quiet(log, n) ==> Quiet(log + [e], n)
    ensures e == Interval || (e == Reported && Quiet(log, |log|)) ==> Quiet(log + [e], |log| + 1)
  {
    var all := log + [e];
    if Quiet(log, n) {
      var r :| 0 <= r < n && r < |log| && log[r] == Interval && forall j :: r < j < n && j < |log| ==>
            log[j] == Reported;
      assert all[r] == Interval;
      forall j | r < j < n && j < |all| ensures all[j] == Reported { assert all[j] == log[j]; }
    }
    if e == Interval {
      assert all[|log|] == Interval;
    } else if e == Reported && Quiet(log, |log|) {
      var r :| 0 <= r < |log| && log[r] == Interval && forall j :: r < j < |log| && j < |log| ==> log[j] == Reported;
      assert all[r] == Interval;
      forall j | r < j < |log| + 1 && j < |all| ensures all[j] == Reported { if j < |log| { assert all[j] == log[j]; } }
    }
  }

  lemma DebouncedGrows(log: seq<Entry>, e: Entry)
    requires Debounced(log) && (e == SyncStart && log != [] ==> Quiet(log, |log|))
    ensures Debounced(log + [e])
  {
    var all := log + [e];
    forall q | 0 < q < |all| && all[q] == SyncStart ensures Quiet(all, q) {
      if q < |log| { assert all[q] == log[q]; }
      QuietGrows(log, q, e);
    }
  }

  /** A synchronisation serves every event before it; other entries leave served events served. */
  lemma ServedGrows(log: seq<Entry>, e: Entry)
    ensures e == SyncStart ==> forall p :: 0 <= p < |log| ==> Served(log + [e], p)
    ensures forall p :: 0 <= p < |log| && Served(log, p) ==> Served(log + [e], p)
  {
    var all := log + [e];
    if e == SyncStart { assert all[|log|] == SyncStart; }
    forall p | 0 <= p < |log| && Served(log, p) ensures Served(all, p) {
      var q :| p < q < |log| && log[q] == SyncStart;
      assert all[q] == SyncStart;
    }
  }

  /** One entry more, with what it does to the timer and to the pending flag. */
  lemma EntryKeepsInvariant(s: State, e: Entry, pending: bool, timer: Timer)
    requires Invariant(s) && (pending <==> timer != Stopped)
    requires match e
      case SyncStart => s.timer == Fired && !pending
      case ConfigEvent => timer == Armed
      case Interval => s.timer == Armed && timer == Fired
      case Reported => timer == s.timer
    ensures Invariant(s.(log := s.log + [e], pending := pending, timer := timer))
  {
    CountSnoc(s.log, e, SyncStart);
    CountSnoc(s.log, e, ConfigEvent);
    QuietGrows(s.log, |s.log|, e);
    DebouncedGrows(s.log, e);
    ServedGrows(s.log, e);
    hide Debounced, Quiet, Served, Count;
  }

  lemma StepKeepsInvariant(configPath: string, s: State, i: Input)
    requires Invariant(s)
    ensures Invariant(Step(configPath, s, i))
  {
    var next := Step(configPath, s, i);
    hide Base;
    if s.exit == Stays {
      match i
      case Event(path) =>
        if path.Some? && Base(path.value) == Base(configPath) { EntryKeepsInvariant(s, ConfigEvent, true, Armed); }
      case SourceError(err) => if err.Some? { EntryKeepsInvariant(s, Reported, s.pending, s.timer); }
      case Elapsed => if s.timer == Armed { EntryKeepsInvariant(s, Interval, true, Fired); }
      case TickReceived(syncs) =>
        if s.timer == Fired && s.pending {
          EntryKeepsInvariant(s, SyncStart, false, Stopped);
          var started := s.(log := s.log + [SyncStart], pending := false, timer := Stopped);
          if !syncs { EntryKeepsInvariant(started, Reported, false, Stopped); } else { assert next.log == started.log; }
        }
      case Cancelled =>
    }
    hide Quiet, NothingLost, Debounced, Count;
  }

  /** In every run: a synchronisation is due exactly while the timer runs or its tick waits, every
      configuration event is followed by a synchronisation unless one is still due, every
      synchronisation waits for a quiet interval, and there are at most one more than events. */
  lemma {:induction false} EveryRunKeepsInvariant(configPath: string, s: State, inputs: seq<Input>)
    requires Invariant(s)
    ensures Invariant(Run(configPath, s, inputs))
    decreases |inputs|
  {
    hide Invariant, Step;
    if inputs != [] {
      StepKeepsInvariant(configPath, s, inputs[0]);
      EveryRunKeepsInvariant(configPath, Step(configPath, s, inputs[0]), inputs[1..]);
    }
  }

  lemma BeginHasInvariant(syncs: bool)
    ensures Invariant(Begin(syncs))
  {
    assert [SyncStart][..0] == [];
    assert Count([SyncStart], SyncStart) == 1 && Count([SyncStart], ConfigEvent) == 0;
  }

  /** Whatever happened before, a run that goes on and sees the interval pass and the tick has
      followed every configuration event with a synchronisation. */
  lemma QuietSourceIsServed(configPath: string, syncs: bool, inputs: seq<Input>, last: bool)
    requires Run(configPath, Begin(syncs), inputs).exit == Stays
    ensures var s := Run(configPath, Begin(syncs), inputs + [Elapsed, TickReceived(last)]);
      && !s.pending && s.exit == Stays
      && (forall p :: 0 <= p < |s.log| && s.log[p] == ConfigEvent ==> Served(s.log, p))
      && Count(s.log, SyncStart) <= 1 + Count(s.log, ConfigEvent)
  {
    BeginHasInvariant(syncs);
    EveryRunKeepsInvariant(configPath, Begin(syncs), inputs);
    EveryRunKeepsInvariant(configPath, Begin(syncs), inputs + [Elapsed, TickReceived(last)]);
    RunSplits(configPath, Begin(syncs), inputs, [Elapsed, TickReceived(last)]);
    var s := Run(configPath, Begin(syncs), inputs);
    var t := Step(configPath, s, Elapsed);
    assert [Elapsed, TickReceived(last)][1..] == [TickReceived(last)];
    assert Run(configPath, s, [Elapsed, TickReceived(last)]) == Run(configPath, t, [TickReceived(last)])
      == Step(configPath, t, TickReceived(last));
    hide Quiet, Served, Debounced, Count;
  }

  lemma {:induction false} RunSplits(configPath: string, s: State, a: seq<Input>, b: seq<Input>)
    ensures Run(configPath, s, a + b) == Run(configPath, Run(configPath, s, a), b)
    decreases |a|
  {
    hide Step;
    if a == [] {
      assert a + b == b;
    } else {
      assert (a + b)[0] == a[0] && (a + b)[1..] == a[1..] + b;
      RunSplits(configPath, Step(configPath, s, a[0]), a[1..], b);
    }
  }

  // ----- Names, ends and errors -----

  /** Whatever the directory, and with slashes at the end or without, the base of a path is its last name. */
  lemma {:induction false} BaseIsName(dir: string, name: string, slashes: string)
    requires name != "" && Without(name, '/') && (dir == "" || dir[|dir| - 1] == '/')
    requires forall i :: 0 <= i < |slashes| ==> slashes[i] == '/'
    ensures Base(dir + name + slashes) == name
    decreases |slashes|
  {
    var path := dir + name + slashes;
    if slashes == "" {
      assert path == dir + name && path[|path| - 1] == name[|name| - 1];
      LastElementIsName(dir, name);
    } else {
      BaseIsName(dir, name, slashes[..|slashes| - 1]);
      assert path[..|path| - 1] == dir + name + slashes[..|slashes| - 1];
    }
  }

  lemma {:induction false} LastElementIsName(dir: string, name: string)
    requires Without(name, '/') && (dir == "" || dir[|dir| - 1] == '/')
    ensures LastElement(dir + name) == name
    decreases |name|
  {
    var path := dir + name;
    if name == "" {
      assert path == dir;
    } else {
      assert path[..|path| - 1] == dir + name[..|name| - 1];
      LastElementIsName(dir, name[..|name| - 1]);
    }
  }

  /** The loop is over: cancelled, or one of the channels is closed. */
  predicate Ends(i: Input) { i == Cancelled || i == Event(None) || i == SourceError(None) }

  function FirstEnd(inputs: seq<Input>): Option<Input> {
    if inputs == [] then None else if Ends(inputs[0]) then Some(inputs[0]) else FirstEnd(inputs[1..])
  }

  /** The events before the end that are about the configuration file. */
  function Relevant(configPath: string, inputs: seq<Input>): nat {
    if inputs == [] || Ends(inputs[0]) then 0
    else
      Relevant(configPath, inputs[1..])
      + if inputs[0].Event? && Base(inputs[0].path.value) == Base(configPath) then 1 else 0
  }

  /** A failed first synchronisation or a cancellation ends the loop with an error, a closed channel without,
      and nothing else ends it. Until then exactly the events about the configuration file count. */
  lemma LoopEndsExactly(configPath: string, syncs: bool, inputs: seq<Input>)
    ensures var s := Run(configPath, Begin(syncs), inputs);
      && s.exit == (if !syncs then ReturnsError
                    else match FirstEnd(inputs)
                      case None => Stays
                      case Some(i) => if i == Cancelled then ReturnsError else ReturnsOk)
      && Count(s.log, ConfigEvent) == if syncs then Relevant(configPath, inputs) else 0
  {
    assert [SyncStart][..0] == [];
    assert Count([SyncStart], ConfigEvent) == 0;
    if syncs { RunEndsExactly(configPath, Begin(syncs), inputs); } else { AfterExit(configPath, Begin(syncs), inputs); }
  }

  lemma {:induction false} RunEndsExactly(configPath: string, s: State, inputs: seq<Input>)
    requires s.exit == Stays
    ensures var end := Run(configPath, s, inputs);
      && end.exit == (match FirstEnd(inputs)
                      case None => Stays
                      case Some(i) => if i == Cancelled then ReturnsError else ReturnsOk)
      && Count(end.log, ConfigEvent) == Count(s.log, ConfigEvent) + Relevant(configPath, inputs)
    decreases |inputs|
  {
    hide Step, Count, Base;
    if inputs != [] {
      var next := Step(configPath, s, inputs[0]);
      StepEndsExactly(configPath, s, inputs[0]);
      if Ends(inputs[0]) { AfterExit(configPath, next, inputs[1..]); }
      else { RunEndsExactly(configPath, next, inputs[1..]); }
    }
  }

  lemma StepEndsExactly(configPath: string, s: State, i: Input)
    requires s.exit == Stays
    ensures var next := Step(configPath, s, i);
      && next.exit == (if !Ends(i) then Stays else if i == Cancelled then ReturnsError else ReturnsOk)
      && Count(next.log, ConfigEvent) == Count(s.log, ConfigEvent)
        + if !Ends(i) && i.Event? && Base(i.path.value) == Base(configPath) then 1 else 0
  {
    hide Count, Base;
    match i
    case Event(_) => CountSnoc(s.log, ConfigEvent, ConfigEvent);
    case SourceError(_) => CountSnoc(s.log, Reported, ConfigEvent);
    case TickReceived(works) =>
      CountSnoc(s.log, SyncStart, ConfigEvent);
      CountSnoc(s.log + [SyncStart], Reported, ConfigEvent);
      assert s.log + [SyncStart] + [] == s.log + [SyncStart];
    case Elapsed => CountSnoc(s.log, Interval, ConfigEvent);
    case Cancelled =>
  }

  /** Errors of the source and of a synchronisation are reported, and the loop goes on. */
  lemma ErrorsAreReported(configPath: string, s: State, text: string, works: bool)
    requires s.exit == Stays
    ensures Step(configPath, s, SourceError(Some(text))) == s.(log := s.log + [Reported])
    ensures var next := Step(configPath, s, TickReceived(works));
      && next.exit == Stays
      && next.log == s.log + if !(s.pending && s.timer == Fired) then [] else if works then [SyncStart]
                             else [SyncStart, Reported]
  {
    assert s.log + [SyncStart] + [Reported] == s.log + [SyncStart, Reported];
    assert s.log + [] == s.log && s.log + [SyncStart] + [] == s.log + [SyncStart];
  }

  // ----- The loop itself -----

  /** The loop on any sequence of inputs; it stops early when it returns. */
  method RunLoop(configPath: string, syncs: bool, inputs: seq<Input>) returns (log: seq<Entry>, exit: Exit)
    ensures var s := Run(configPath, Begin(syncs), inputs);
      log == s.log && exit == s.exit && Invariant(s)
  {
    log := [SyncStart];
    BeginHasInvariant(syncs);
    EveryRunKeepsInvariant(configPath, Begin(syncs), inputs);
    exit := if syncs then Stays else ReturnsError;
    var pending, timer := false, Stopped;
    var i := 0;
    assert inputs[0..] == inputs;
    while i < |inputs| && exit == Stays
      invariant 0 <= i <= |inputs|
      invariant Run(configPath, State(pending, timer, log, exit), inputs[i..]) == Run(configPath, Begin(syncs), inputs)
    {
      var input := inputs[i];
      ghost var s := State(pending, timer, log, exit);
      match input {
        case Cancelled => exit := ReturnsError;
        case Event(path) =>
          if path.None? {
            exit := ReturnsOk;
          } else if Base(path.value) == Base(configPath) {
            pending, timer, log := true, Armed, log + [ConfigEvent];
          }
        case SourceError(err) =>
          if err.None? { exit := ReturnsOk; } else { log := log + [Reported]; }
        case TickReceived(works) =>
          if timer == Fired {
            timer := Stopped;
            if pending {
              pending := false;
              log := log + [SyncStart];
              if !works { log := log + [Reported]; }
            }
          }
        case Elapsed =>
          if timer == Armed { timer, log := Fired, log + [Interval]; }
      }
      assert inputs[i..][1..] == inputs[i + 1..];
      assert State(pending, timer, log, exit) == Step(configPath, s, input);
      i := i + 1;
    }
    AfterExit(configPath, State(pending, timer, log, exit), inputs[i..]);
  }

  /** After the loop returned, nothing matters. */
  lemma {:induction false} AfterExit(configPath: string, s: State, inputs: seq<Input>)
    requires s.exit != Stays || inputs == []
    ensures Run(configPath, s, inputs) == s
    decreases |inputs|
  {
    if inputs != [] { AfterExit(configPath, s, inputs[1..]); }
  }
}
