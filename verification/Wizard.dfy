/** The step-by-step wizard: a message-driven machine and every run of it. */
module Wizard {
  import opened Text

  datatype StepState = Pending | Running | Done | Failed

  datatype StepOutcome = StepOutcome(name: string, skipped: bool)

  datatype Model = Model(current: nat, states: seq<StepState>, outcomes: seq<StepOutcome>, errText: string,
                         waitKey: bool, spinner: nat, width: int, height: int)

  datatype Msg =
    | Resize(width: int, height: int)
    | StepResult(index: nat, err: Option<string>)
    | Tick
    | Key(text: string)
    | Foreign

  datatype Cmd = NoCmd | RunStep(index: nat) | IssueDone(outcomes: seq<StepOutcome>) | Quit

  /** Updating may run off the end of the step list, which stops the program. */
  datatype Updated = Updated(model: Model, cmd: Cmd) | Panic

  function Repeat(state: StepState, n: nat): (r: seq<StepState>)
    ensures |r| == n && forall i :: 0 <= i < n ==> r[i] == state
  {
    seq(n, _ => state)
  }

  function NewModel(steps: seq<string>): Model {
    Model(0, Repeat(Pending, |steps|), [], "", false, 0, 0, 0)
  }

  function FirstCmd(steps: seq<string>): Cmd {
    if |steps| == 0 then IssueDone([]) else RunStep(0)
  }

  /** The current step is done; start the next one or report the end. */
  function Advance(steps: seq<string>, m: Model, skipped: bool): Updated {
    if m.current >= |steps| || m.current >= |m.states| then Panic
    else
      var outcomes := m.outcomes + [StepOutcome(steps[m.current], skipped)];
      var next := m.(states := m.states[m.current := Done], outcomes := outcomes, current := m.current + 1);
      if next.current >= |steps| then Updated(next, IssueDone(outcomes))
      else if next.current >= |m.states| then Panic
      else Updated(next.(states := next.states[next.current := Running]), RunStep(next.current))
  }

  predicate IsKey(text: string, c: char) { |text| == 1 && LowerChar(text[0]) == c }

  function React(steps: seq<string>, m: Model, msg: Msg): Updated {
    match msg
    case Resize(w, h) => Updated(m.(width := w, height := h), NoCmd)
    case Tick => Updated(m.(spinner := m.spinner + 1), NoCmd)
    case Foreign => Updated(m, NoCmd)
    case StepResult(index, err) =>
      if index != m.current then Updated(m, NoCmd)
      else if err.Some? then
        if m.current >= |m.states| then Panic
        else Updated(m.(states := m.states[m.current := Failed], errText := err.value, waitKey := true), NoCmd)
      else Advance(steps, m, false)
    case Key(text) =>
      if !m.waitKey then Updated(m, NoCmd)
      else if IsKey(text, 'r') then
        if m.current >= |steps| || m.current >= |m.states| then Panic
        else Updated(m.(states := m.states[m.current := Running], waitKey := false, errText := ""), RunStep(m.current))
      else if IsKey(text, 's') then Advance(steps, m.(waitKey := false, errText := ""), true)
      else if IsKey(text, 'a') || Lower(text) == "ctrl+c" then Updated(m, Quit)
      else Updated(m, NoCmd)
  }

  // ----- Runs -----

  /** What happens around the machine: a started step reports, or a message arrives that is no
      step result. */
  datatype Event = Reports(index: nat, err: Option<string>) | Arrives(msg: Msg)

  datatype Entry = Started(index: nat) | Succeeded(index: nat) | Broke(index: nat) | Skipped(index: nat)

  /** The machine with the results still outstanding, what happened, and the done messages. */
  datatype Run = Run(model: Model, outstanding: multiset<nat>, log: seq<Entry>, done: seq<seq<StepOutcome>>)

  datatype Ran = Ran(run: Run) | Crashed

  function Issue(r: Run, cmd: Cmd): Run {
    match cmd
    case RunStep(i) => r.(outstanding := r.outstanding + multiset{i}, log := r.log + [Started(i)])
    case IssueDone(outcomes) => r.(done := r.done + [outcomes])
    case _ => r
  }

  function Launch(steps: seq<string>): Run {
    Issue(Run(NewModel(steps), multiset{}, [], []), FirstCmd(steps))
  }

  /** What a message means for the log. */
  function Noted(m: Model, msg: Msg): seq<Entry> {
    match msg
    case StepResult(i, err) =>
      if i != m.current then [] else if err.Some? then [Broke(i)] else [Succeeded(i)]
    case Key(text) => if m.waitKey && IsKey(text, 's') then [Skipped(m.current)] else []
    case _ => []
  }

  function Deliver(steps: seq<string>, r: Run, msg: Msg): Ran {
    var u := React(steps, r.model, msg);
    if u.Panic? then Crashed
    else Ran(Issue(r.(model := u.model, log := r.log + Noted(r.model, msg)), u.cmd))
  }

  /** Events that cannot happen are passed over: only an outstanding step can report. */
  function Happen(steps: seq<string>, r: Run, e: Event): Ran {
    match e
    case Reports(i, err) =>
      if i !in r.outstanding then Ran(r)
      else Deliver(steps, r.(outstanding := r.outstanding - multiset{i}), StepResult(i, err))
    case Arrives(msg) => if msg.StepResult? then Ran(r) else Deliver(steps, r, msg)
  }

  function RunAll(steps: seq<string>, r: Run, events: seq<Event>): Ran
    decreases |events|
  {
    if events == [] then Ran(r)
    else
      var next := Happen(steps, r, events[0]);
      if next.Crashed? then Crashed else RunAll(steps, next.run, events[1..])
  }

  // ----- The invariant -----

  /** Exactly one of: the current step is running and its result is outstanding; the wizard waits
      for a key; every step is done and the end was reported once. */
  datatype Phase = Working | Waiting | Finished

  predicate InPhase(steps: seq<string>, r: Run, p: Phase) {
    match p
    case Working =>
      && r.model.current < |steps| && !r.model.waitKey && r.done == []
      && r.outstanding == multiset{r.model.current}
    case Waiting =>
      && r.model.current < |steps| && r.model.waitKey && r.done == []
      && r.outstanding == multiset{}
    case Finished =>
      && r.model.current == |steps| && !r.model.waitKey && r.done == [r.model.outcomes]
      && r.outstanding == multiset{}
  }

  function PhaseOf(steps: seq<string>, r: Run): Phase {
    if r.model.current >= |steps| then Finished else if r.model.waitKey then Waiting else Working
  }

  /** The outcomes are exactly the steps before the current one, in order. */
  predicate OutcomesMatch(steps: seq<string>, m: Model) {
    && |m.outcomes| == m.current <= |steps|
    && forall i :: 0 <= i < m.current ==> m.outcomes[i].name == steps[i]
  }

  predicate StatesMatch(steps: seq<string>, m: Model) {
    && |m.states| == |steps|
    && (forall i :: 0 <= i < m.current && i < |steps| ==> m.states[i] == Done)
    && (forall i :: m.current < i < |steps| ==> m.states[i] == Pending)
    && (m.current < |steps| ==>
          if m.waitKey then m.states[m.current] == Failed
          else m.states[m.current] == Running || (m.current == 0 && m.states[0] == Pending))
  }

  predicate Ends(e: Entry, i: nat) { e == Succeeded(i) || e == Skipped(i) }

  /** Step `i` succeeded or was skipped among the first `n` entries. */
  predicate EndedBefore(log: seq<Entry>, n: nat, i: nat) {
    exists p :: 0 <= p < n && p < |log| && Ends(log[p], i)
  }

  /** A step starts only after each earlier step succeeded or was skipped. */
  predicate InOrder(log: seq<Entry>) {
    forall p :: 0 <= p < |log| && log[p].Started? ==> forall i :: 0 <= i < log[p].index ==> EndedBefore(log, p, i)
  }

  /** The log says how each step before the current one ended, as its outcome does. */
  predicate LogMatches(m: Model, log: seq<Entry>) {
    && (forall i :: 0 <= i < |m.outcomes| ==> EndedBefore(log, |log|, i))
    && (forall p :: 0 <= p < |log| && log[p].Succeeded? ==>
          log[p].index < |m.outcomes| && !m.outcomes[log[p].index].skipped)
    && (forall p :: 0 <= p < |log| && log[p].Skipped? ==>
          log[p].index < |m.outcomes| && m.outcomes[log[p].index].skipped)
  }

  predicate Invariant(steps: seq<string>, r: Run) {
    && InPhase(steps, r, PhaseOf(steps, r))
    && OutcomesMatch(steps, r.model) && StatesMatch(steps, r.model)
    && InOrder(r.log) && LogMatches(r.model, r.log)
  }

  lemma EndedBeforeGrows(log: seq<Entry>, n: nat, i: nat, more: seq<Entry>, m: nat)
    requires EndedBefore(log, n, i) && n <= m
    ensures EndedBefore(log + more, m, i)
  {
    var p :| 0 <= p < n && p < |log| && Ends(log[p], i);
    assert (log + more)[p] == log[p];
  }

  /** A start at the end of the log keeps the order if every earlier step has ended. */
  lemma StartKeepsOrder(log: seq<Entry>, e: Entry)
    requires InOrder(log)
    requires e.Started? ==> forall i :: 0 <= i < e.index ==> EndedBefore(log, |log|, i)
    ensures InOrder(log + [e])
  {
    var all := log + [e];
    forall p | 0 <= p < |all| && all[p].Started? ensures forall i :: 0 <= i < all[p].index ==> EndedBefore(all, p, i) {
      forall i | 0 <= i < all[p].index ensures EndedBefore(all, p, i) {
        EndedBeforeGrows(log, p, i, [e], p);
      }
    }
  }

  /** Entries that are neither an end nor known to the outcomes change nothing. */
  lemma NoteKeepsMatch(m: Model, log: seq<Entry>, e: Entry)
    requires LogMatches(m, log) && (e.Started? || e.Broke?)
    ensures LogMatches(m, log + [e])
  {
    var all := log + [e];
    forall i | 0 <= i < |m.outcomes| ensures EndedBefore(all, |all|, i) {
      EndedBeforeGrows(log, |log|, i, [e], |all|);
    }
  }

  lemma EndKeepsMatch(m: Model, next: Model, log: seq<Entry>, outcome: StepOutcome, e: Entry)
    requires LogMatches(m, log) && next.outcomes == m.outcomes + [outcome]
    requires e == if outcome.skipped then Skipped(|m.outcomes|) else Succeeded(|m.outcomes|)
    ensures LogMatches(next, log + [e])
  {
    var all := log + [e];
    forall i | 0 <= i < |next.outcomes| ensures EndedBefore(all, |all|, i) {
      if i < |m.outcomes| { EndedBeforeGrows(log, |log|, i, [e], |all|); } else { assert Ends(all[|log|], i); }
    }
  }

  /** The step of the invariant in which the current step ends. */
  lemma AdvanceKeepsInvariant(steps: seq<string>, r: Run, skipped: bool)
    requires r.model.current < |steps| && !r.model.waitKey && r.done == [] && r.outstanding == multiset{}
    requires OutcomesMatch(steps, r.model) && |r.model.states| == |steps|
    requires forall i :: 0 <= i < r.model.current ==> r.model.states[i] == Done
    requires forall i :: r.model.current < i < |steps| ==> r.model.states[i] == Pending
    requires InOrder(r.log) && LogMatches(r.model, r.log)
    ensures var u := Advance(steps, r.model, skipped);
      var e := if skipped then Skipped(r.model.current) else Succeeded(r.model.current);
      u.Updated? && Invariant(steps, Issue(r.(model := u.model, log := r.log + [e]), u.cmd))
  {
    var u := Advance(steps, r.model, skipped);
    var e := if skipped then Skipped(r.model.current) else Succeeded(r.model.current);
    var log := r.log + [e];
    StartKeepsOrder(r.log, e);
    EndKeepsMatch(r.model, u.model, r.log, StepOutcome(steps[r.model.current], skipped), e);
    if u.model.current < |steps| {
      var started := Started(u.model.current);
      StartKeepsOrder(log, started);
      NoteKeepsMatch(u.model, log, started);
    }
  }

  lemma ResultKeepsInvariant(steps: seq<string>, r: Run, i: nat, err: Option<string>)
    requires Invariant(steps, r) && i in r.outstanding
    ensures Happen(steps, r, Reports(i, err)).Ran?
    ensures Invariant(steps, Happen(steps, r, Reports(i, err)).run)
  {
    var taken := r.(outstanding := r.outstanding - multiset{i});
    if err.None? {
      hide InOrder, LogMatches, Advance;
      AdvanceKeepsInvariant(steps, taken, false);
    } else {
      StartKeepsOrder(r.log, Broke(i));
      NoteKeepsMatch(r.model, r.log, Broke(i));
      hide InOrder, LogMatches;
    }
  }

  lemma KeyKeepsInvariant(steps: seq<string>, r: Run, text: string)
    requires Invariant(steps, r)
    ensures Happen(steps, r, Arrives(Key(text))).Ran?
    ensures Invariant(steps, Happen(steps, r, Arrives(Key(text))).run)
  {
    assert r.log + [] == r.log;
    if r.model.waitKey && IsKey(text, 's') {
      hide InOrder, LogMatches, Advance;
      var cleared := r.model.(waitKey := false, errText := "");
      LogOfSameOutcomes(r.model, cleared, r.log);
      AdvanceKeepsInvariant(steps, r.(model := cleared), true);
    } else if r.model.waitKey && IsKey(text, 'r') {
      StartKeepsOrder(r.log, Started(r.model.current));
      NoteKeepsMatch(r.model, r.log, Started(r.model.current));
      hide InOrder;
    } else {
      hide InOrder, LogMatches;
    }
  }

  lemma LogOfSameOutcomes(m: Model, n: Model, log: seq<Entry>)
    requires m.outcomes == n.outcomes
    ensures LogMatches(m, log) <==> LogMatches(n, log)
  {}

  lemma EventKeepsInvariant(steps: seq<string>, r: Run, e: Event)
    requires Invariant(steps, r)
    ensures Happen(steps, r, e).Ran? && Invariant(steps, Happen(steps, r, e).run)
  {
    match e
    case Reports(i, err) => if i in r.outstanding { ResultKeepsInvariant(steps, r, i, err); }
    case Arrives(msg) =>
      match msg
      case Key(text) => KeyKeepsInvariant(steps, r, text);
      case StepResult(_, _) =>
      case _ =>
        assert r.log + [] == r.log;
        var u := React(steps, r.model, msg);
        LogOfSameOutcomes(r.model, u.model, r.log);
        hide InOrder, LogMatches;
  }

  lemma LaunchHasInvariant(steps: seq<string>)
    ensures Invariant(steps, Launch(steps))
  {}

  /** In every run, whatever the order of results, keys, ticks and resizes, no step list access is
      out of bounds, the outcomes are the steps before the current one in order, no step starts
      before its predecessors succeeded or were skipped, at most one result is outstanding, and
      the end is reported once, with all outcomes, when all steps are done. */
  lemma {:induction false} EveryRunKeepsInvariant(steps: seq<string>, r: Run, events: seq<Event>)
    requires Invariant(steps, r)
    ensures RunAll(steps, r, events).Ran? && Invariant(steps, RunAll(steps, r, events).run)
    decreases |events|
  {
    hide Invariant, Happen;
    if events != [] {
      EventKeepsInvariant(steps, r, events[0]);
      EveryRunKeepsInvariant(steps, Happen(steps, r, events[0]).run, events[1..]);
    }
  }

  /** What the invariant says to the caller. */
  lemma RunsFromLaunch(steps: seq<string>, events: seq<Event>)
    ensures var ran := RunAll(steps, Launch(steps), events);
      && ran.Ran?
      && |ran.run.outstanding| <= 1 && |ran.run.done| <= 1
      && (forall i :: 0 <= i < |ran.run.model.outcomes| ==> i < |steps| && ran.run.model.outcomes[i].name == steps[i])
      && (ran.run.done != [] <==> |ran.run.model.outcomes| == |steps|)
      && (ran.run.done != [] ==> ran.run.done[0] == ran.run.model.outcomes && ran.run.outstanding == multiset{})
      && InOrder(ran.run.log)
  {
    hide InOrder, LogMatches;
    LaunchHasInvariant(steps);
    EveryRunKeepsInvariant(steps, Launch(steps), events);
  }

  // ----- Keys, failures and the display -----

  /** While the wizard waits, R runs the failed step again, S skips it, A and Ctrl+C quit with everything as
      it is; otherwise, and for any other key, nothing happens. */
  lemma KeysAnswer(steps: seq<string>, r: Run, text: string)
    requires Invariant(steps, r)
    ensures var m, u := r.model, React(steps, r.model, Key(text));
      && u.Updated?
      && (u.cmd == Quit <==> m.waitKey && (text == "a" || text == "A" || Lower(text) == "ctrl+c"))
      && (u.model != m <==> m.waitKey && (text == "r" || text == "R" || text == "s" || text == "S"))
      && (u.model == m ==> u.cmd == Quit || u.cmd == NoCmd)
      && (m.waitKey && (text == "r" || text == "R") ==>
            u.cmd == RunStep(m.current) && u.model.current == m.current && u.model.outcomes == m.outcomes
              && !u.model.waitKey && u.model.errText == "")
      && (m.waitKey && (text == "s" || text == "S") ==>
            u.model.outcomes == m.outcomes + [StepOutcome(steps[m.current], true)]
              && u.cmd == if m.current + 1 < |steps| then RunStep(m.current + 1) else IssueDone(u.model.outcomes))
  {
    hide InOrder, LogMatches;
    assert Lower("ctrl+c")[0] == 'c';
    OneKey(text, 'r', 'R');
    OneKey(text, 's', 'S');
    OneKey(text, 'a', 'A');
  }

  lemma OneKey(text: string, small: char, big: char)
    requires 'a' <= small <= 'z' && big as int + 32 == small as int
    ensures IsKey(text, small) <==> text == [small] || text == [big]
  {
    if |text| == 1 { assert text == [text[0]]; }
  }

  /** The running step's result: a failure is shown and waits for a key, a success starts the next step or
      reports all outcomes. */
  lemma ResultsAnswer(steps: seq<string>, r: Run, i: nat, err: Option<string>)
    requires Invariant(steps, r) && i in r.outstanding
    ensures var next := Happen(steps, r, Reports(i, err));
      && next.Ran? && i == r.model.current
      && (err.Some? ==>
            && next.run.model == r.model.(states := next.run.model.states, errText := err.value, waitKey := true)
            && next.run.outstanding == multiset{} && next.run.log == r.log + [Broke(i)])
      && (err.None? ==>
            && next.run.model.outcomes == r.model.outcomes + [StepOutcome(steps[i], false)]
            && if i + 1 < |steps| then next.run.outstanding == multiset{i + 1} else next.run.done != [])
  {
    hide InOrder, LogMatches;
  }

  /** A result that does not belong to the current step changes nothing, whatever the wizard is doing; no run
      delivers one. */
  lemma StaleResultsAreIgnored(steps: seq<string>, m: Model, index: nat, err: Option<string>)
    requires index != m.current
    ensures React(steps, m, StepResult(index, err)) == Updated(m, NoCmd)
  {}

  function Ticks(events: seq<Event>): nat {
    if events == [] then 0 else Ticks(events[1..]) + if events[0] == Arrives(Tick) then 1 else 0
  }

  /** The last size announced. */
  function Size(events: seq<Event>, before: (int, int)): (int, int) {
    if events == [] then before
    else Size(events[1..], if events[0].Arrives? && events[0].msg.Resize?
                           then (events[0].msg.width, events[0].msg.height) else before)
  }

  lemma ReactDisplays(steps: seq<string>, m: Model, msg: Msg)
    requires React(steps, m, msg).Updated? && (!m.waitKey ==> m.errText == "")
    ensures var next := React(steps, m, msg).model;
      && next.spinner == m.spinner + (if msg == Tick then 1 else 0)
      && (next.width, next.height) == (if msg.Resize? then (msg.width, msg.height) else (m.width, m.height))
      && (!next.waitKey ==> next.errText == "")
  {}

  lemma IssueKeepsModel(r: Run, cmd: Cmd)
    ensures Issue(r, cmd).model == r.model
  {}

  lemma EventDisplays(steps: seq<string>, r: Run, e: Event)
    requires Happen(steps, r, e).Ran? && (!r.model.waitKey ==> r.model.errText == "")
    ensures var m := Happen(steps, r, e).run.model;
      && m.spinner == r.model.spinner + (if e == Arrives(Tick) then 1 else 0)
      && (m.width, m.height) == (if e.Arrives? && e.msg.Resize? then (e.msg.width, e.msg.height)
                                 else (r.model.width, r.model.height))
      && (!m.waitKey ==> m.errText == "")
  {
    hide React, Issue, Noted;
    var msg := match e case Reports(i, err) => StepResult(i, err) case Arrives(msg) => msg;
    var u := React(steps, r.model, msg);
    if u.Updated? {
      ReactDisplays(steps, r.model, msg);
      forall before: Run ensures Issue(before, u.cmd).model == before.model { IssueKeepsModel(before, u.cmd); }
    }
  }

  /** At the end of any run the display has the last size, as many spinner steps as ticks, and no error text
      unless the wizard waits for a key. */
  lemma {:induction false} DisplayFollows(steps: seq<string>, r: Run, events: seq<Event>)
    requires Invariant(steps, r) && (!r.model.waitKey ==> r.model.errText == "")
    ensures RunAll(steps, r, events).Ran?
    ensures var m := RunAll(steps, r, events).run.model;
      && m.spinner == r.model.spinner + Ticks(events)
      && (m.width, m.height) == Size(events, (r.model.width, r.model.height))
      && (!m.waitKey ==> m.errText == "")
    decreases |events|
  {
    hide Invariant, Happen;
    if events != [] {
      EventKeepsInvariant(steps, r, events[0]);
      EventDisplays(steps, r, events[0]);
      DisplayFollows(steps, Happen(steps, r, events[0]).run, events[1..]);
    }
  }

  // ----- The model object -----

  class WizardModel {
    const steps: seq<string>
    var current: nat
    const states: array<StepState>
    var outcomes: seq<StepOutcome>
    var errText: string
    var waitKey: bool
    var spinner: nat
    var width: int
    var height: int

    ghost function View(): Model
      reads this, states
    {
      Model(current, states[..], outcomes, errText, waitKey, spinner, width, height)
    }

    constructor (steps: seq<string>)
      ensures this.steps == steps && View() == NewModel(steps) && fresh(states)
    {
      this.steps := steps;
      current, outcomes, errText, waitKey, spinner, width, height := 0, [], "", false, 0, 0, 0;
      states := new StepState[|steps|](_ => Pending);
    }

    method Init() returns (cmd: Cmd)
      ensures cmd == FirstCmd(steps)
    {
      if |steps| == 0 { return IssueDone([]); }
      return RunStep(0);
    }

    /** Where the program would not run off the end, it does what the machine does. */
    method Update(msg: Msg) returns (cmd: Cmd)
      requires React(steps, View(), msg).Updated?
      modifies this, states
      ensures Updated(View(), cmd) == React(steps, old(View()), msg)
    {
      match msg {
        case Resize(w, h) =>
          width := w;
          height := h;
        case StepResult(index, err) =>
          if index != current { return NoCmd; }
          if err.Some? {
            states[current] := Failed;
            errText := err.value;
            waitKey := true;
            return NoCmd;
          }
          cmd := FinishCurrent(false);
          return cmd;
        case Tick =>
          spinner := spinner + 1;
        case Foreign =>
        case Key(text) =>
          if !waitKey { return NoCmd; }
          if IsKey(text, 'r') {
            states[current] := Running;
            waitKey := false;
            errText := "";
            return RunStep(current);
          }
          if IsKey(text, 's') {
            waitKey := false;
            errText := "";
            cmd := FinishCurrent(true);
            return cmd;
          }
          if IsKey(text, 'a') || Lower(text) == "ctrl+c" { return Quit; }
      }
      return NoCmd;
    }

    method FinishCurrent(skipped: bool) returns (cmd: Cmd)
      requires Advance(steps, View(), skipped).Updated?
      modifies this, states
      ensures Updated(View(), cmd) == Advance(steps, old(View()), skipped)
    {
      states[current] := Done;
      outcomes := outcomes + [StepOutcome(steps[current], skipped)];
      current := current + 1;
      if current >= |steps| { return IssueDone(outcomes); }
      states[current] := Running;
      return RunStep(current);
    }
  }
}
