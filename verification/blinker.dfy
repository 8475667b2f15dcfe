/** The bookkeeping of `start_blinker` and `stop_blinker`: the parent's
    handle on the background blinker, the loop flag and the current pattern.
    Spawning and joining a process are recorded as control actions. */
module Blinker {
  import opened Optional

  /** A background blinker process, known by the arguments it was spawned
      with: `Process(target = blink_pattern, args = (pattern, delay, pulse))`. */
  datatype Runner = Runner(pattern: string, delay: Option<real>, pulse: Option<bool>)

  /** What the parent does to processes: start one, or wait for one to end. */
  datatype Control = Spawn(runner: Runner) | Join(runner: Runner)

  /** `blinker_thread`, `blinker_not_interrupted`, `current_blink_pattern`. */
  datatype State = State(thread: Option<Runner>, notInterrupted: bool, currentPattern: string)

  /** The state after an operation and the control actions it performed. */
  datatype Step = Step(state: State, actions: seq<Control>)

  /** The three fields as `__init__` sets them. */
  const Initial: State := State(None, true, "")

  /** `stop_blinker()`. */
  function Stop(s: State): (r: Step)
    ensures r.state.thread.None? && !r.state.notInterrupted
    ensures r.state.currentPattern == s.currentPattern
    ensures s.thread.None? ==> r.actions == []
    ensures s.thread.Some? ==> r.actions == [Join(s.thread.value)]
  {
    var flagged := s.(notInterrupted := false);
    match flagged.thread
    case None => Step(flagged, [])
    case Some(t) => Step(flagged.(thread := None), [Join(t)])
  }

  /** `start_blinker(pattern, delay, pulse)`; when a blinker is running this
      is a restart: stop, then start again with the new arguments. */
  function Start(s: State, pattern: string, delay: Option<real>, pulse: Option<bool>): (r: Step)
    ensures r.state == State(Some(Runner(pattern, delay, pulse)), true, pattern)
    ensures s.thread.None? ==> r.actions == [Spawn(Runner(pattern, delay, pulse))]
    ensures s.thread.Some? ==> r.actions == [Join(s.thread.value), Spawn(Runner(pattern, delay, pulse))]
    decreases if s.thread.Some? then 1 else 0
  {
    var s' := s.(currentPattern := pattern);
    if s'.thread.None? then
      var runner := Runner(pattern, delay, pulse);
      Step(s'.(notInterrupted := true, thread := Some(runner)), [Spawn(runner)])
    else
      var stopped := Stop(s');
      var restarted := Start(stopped.state, pattern, delay, pulse);
      Step(restarted.state, stopped.actions + restarted.actions)
  }

  /** The one process that may be alive, replayed through `actions`: None
      when an action spawns while a process is alive or joins a process that
      is not the alive one. */
  function Replay(alive: Option<Runner>, actions: seq<Control>): Option<Option<Runner>>
    decreases |actions|
  {
    if actions == [] then Some(alive)
    else match actions[0]
      case Spawn(r) => if alive.None? then Replay(Some(r), actions[1..]) else None
      case Join(r) => if alive == Some(r) then Replay(None, actions[1..]) else None
  }

  lemma {:induction false} ReplayAppend(alive: Option<Runner>, a: seq<Control>, b: seq<Control>)
    ensures Replay(alive, a + b) == match Replay(alive, a)
      case None => None
      case Some(next) => Replay(next, b)
    decreases |a|
  {
    if a == [] {
      assert a + b == b;
    } else {
      assert (a + b)[0] == a[0];
      assert (a + b)[1..] == a[1..] + b;
      match a[0] {
        case Spawn(r) => if alive.None? { ReplayAppend(Some(r), a[1..], b); }
        case Join(r) => if alive == Some(r) { ReplayAppend(None, a[1..], b); }
      }
    }
  }

  /** The handle the parent keeps is the process that is alive, and at most
      one process is ever alive: `stop_blinker` joins it and `start_blinker`
      joins the old one before spawning the new one. */
  lemma StopStartReplay(s: State, pattern: string, delay: Option<real>, pulse: Option<bool>)
    ensures Replay(s.thread, Stop(s).actions) == Some(Stop(s).state.thread)
    ensures Replay(s.thread, Start(s, pattern, delay, pulse).actions) == Some(Start(s, pattern, delay, pulse).state.thread)
  {
    var runner := Runner(pattern, delay, pulse);
    assert Replay(Some(runner), []) == Some(Some(runner));
    assert Replay(None, [Spawn(runner)]) == Some(Some(runner));
    if s.thread.Some? {
      var acts := [Join(s.thread.value), Spawn(runner)];
      assert acts[1..] == [Spawn(runner)];
    }
  }

  /** The calls a caller can make. */
  datatype Call = StartBlinker(pattern: string, delay: Option<real>, pulse: Option<bool>) | StopBlinker

  /** A sequence of calls, in order, with all their control actions. */
  function Run(s: State, calls: seq<Call>): Step
    decreases |calls|
  {
    if calls == [] then Step(s, [])
    else
      var first := match calls[0]
        case StartBlinker(p, d, u) => Start(s, p, d, u)
        case StopBlinker => Stop(s);
      var rest := Run(first.state, calls[1..]);
      Step(rest.state, first.actions + rest.actions)
  }

  /** Whatever calls are made, the processes actually spawned and joined
      never overlap and end with exactly the handle the parent keeps. */
  lemma {:induction false} RunReplay(s: State, calls: seq<Call>)
    ensures Replay(s.thread, Run(s, calls).actions) == Some(Run(s, calls).state.thread)
    decreases |calls|
  {
    if calls != [] {
      var first := match calls[0]
        case StartBlinker(p, d, u) => Start(s, p, d, u)
        case StopBlinker => Stop(s);
      match calls[0] {
        case StartBlinker(p, d, u) => StopStartReplay(s, p, d, u);
        case StopBlinker => StopStartReplay(s, "", None, None);
      }
      RunReplay(first.state, calls[1..]);
      ReplayAppend(s.thread, first.actions, Run(first.state, calls[1..]).actions);
    }
  }

  /** A running blinker runs the current pattern, with the flag set. */
  ghost predicate Consistent(s: State)
  {
    s.thread.Some? ==> s.thread.value.pattern == s.currentPattern && s.notInterrupted
  }

  /** Every sequence of calls from a consistent state keeps it consistent. */
  lemma {:induction false} RunConsistent(s: State, calls: seq<Call>)
    requires Consistent(s)
    ensures Consistent(Run(s, calls).state)
    decreases |calls|
  {
    if calls != [] {
      var first := match calls[0]
        case StartBlinker(p, d, u) => Start(s, p, d, u)
        case StopBlinker => Stop(s);
      RunConsistent(first.state, calls[1..]);
    }
  }

  /** From `__init__`, every sequence of calls keeps the state consistent,
      and its actions never leave more than the parent's one process alive. */
  lemma RunFromInitial(calls: seq<Call>)
    ensures Initial.thread.None? && Consistent(Initial)
    ensures Consistent(Run(Initial, calls).state)
    ensures Replay(None, Run(Initial, calls).actions) == Some(Run(Initial, calls).state.thread)
  {
    RunConsistent(Initial, calls);
    RunReplay(Initial, calls);
  }

  /** `stop_blinker` on an idle blinker does nothing to processes, and a
      second `stop_blinker` changes nothing at all. */
  lemma StopIdempotent(s: State)
    ensures s.thread.None? ==> Stop(s).actions == [] && Stop(s).state == s.(notInterrupted := false)
    ensures Stop(Stop(s).state) == Step(Stop(s).state, [])
  {
  }

  /** A restart is exactly a stop followed by a start. */
  lemma RestartIsStopThenStart(s: State, pattern: string, delay: Option<real>, pulse: Option<bool>)
    requires s.thread.Some?
    ensures var stopped := Stop(s);
      var started := Start(stopped.state, pattern, delay, pulse);
      Start(s, pattern, delay, pulse) == Step(started.state, stopped.actions + started.actions)
  {
  }
}
