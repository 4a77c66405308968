// The run-state projection: the three committed edges, and the fold over a run's log.
module RunStates {
  import opened EventTypes
  import opened Schema

  /** apply_event: the next state, or None when the event commits no move. */
  function Transition(state: RunState, kind: Kind): Option<RunState> {
    match (state, kind)
    case (Requested, StepStarted) => Some(Running)
    case (Running, RunCompleted) => Some(Completed)
    case (Running, RunFailed) => Some(Failed)
    case _ => None
  }

  function After(state: RunState, kind: Kind): RunState {
    match Transition(state, kind)
    case None => state
    case Some(next) => next
  }

  /** The states a run entered, first to last, by structural recursion on the log. */
  function States(log: seq<Event>): (states: seq<RunState>)
    ensures states != [] && states[0] == Requested
  {
    if log == [] then [Requested]
    else
      var before := States(log[..|log| - 1]);
      match Transition(before[|before| - 1], log[|log| - 1].kind)
      case None => before
      case Some(next) => before + [next]
  }

  function FinalState(log: seq<Event>): RunState {
    var states := States(log);
    states[|states| - 1]
  }

  /** project_run_state: the loop that accumulates the same sequence. */
  method ProjectRunState(events: seq<Event>) returns (states: seq<RunState>)
    ensures states == States(events)
  {
    var state := Requested;
    states := [state];
    for k := 0 to |events|
      invariant states == States(events[..k]) && state == states[|states| - 1]
    {
      assert events[..k + 1][..k] == events[..k];
      var next := Transition(state, events[k].kind);
      if next.Some? {
        state := next.value;
        states := states + [state];
      }
    }
    assert events[..|events|] == events;
  }

  lemma FinalStateSnoc(log: seq<Event>, e: Event)
    ensures FinalState(log + [e]) == After(FinalState(log), e.kind)
  {
    assert (log + [e])[..|log|] == log;
  }

  /** Only four paths exist: a terminal state is reached through running and never left. */
  lemma {:induction false} ProjectionPaths(log: seq<Event>)
    ensures || States(log) == [Requested]
            || States(log) == [Requested, Running]
            || States(log) == [Requested, Running, Completed]
            || States(log) == [Requested, Running, Failed]
  {
    if log != [] {
      ProjectionPaths(log[..|log| - 1]);
      var before := States(log[..|log| - 1]);
      var next := Transition(before[|before| - 1], log[|log| - 1].kind);
      if next.Some? {
        assert States(log) == before + [next.value];
      }
    }
  }

  /** Where the first row of one of these kinds stands, or the length. */
  ghost predicate FirstAt(log: seq<Event>, from: nat, k: nat, kinds: set<Kind>) {
    from <= k <= |log| && (forall i :: from <= i < k ==> log[i].kind !in kinds) && (k < |log| ==> log[k].kind in kinds)
  }

  /** The projection in one sentence: requested until the first step.started at b, running until the
      first ending after it at c, and from there what that ending says, whatever else the log holds. */
  lemma {:induction false} StateExactly(log: seq<Event>, b: nat, c: nat)
    requires FirstAt(log, 0, b, {StepStarted}) && FirstAt(log, b, c, {RunCompleted, RunFailed})
    ensures FinalState(log) == if b == |log| then Requested
                               else if c == |log| then Running
                               else if log[c].kind == RunCompleted then Completed else Failed
  {
    if log != [] {
      var before, k := log[..|log| - 1], |log| - 1;
      assert log == before + [log[k]];
      FinalStateSnoc(before, log[k]);
      if b <= k {
        StateExactly(before, b, if c < k then c else k);
      } else {
        StateExactly(before, k, k);
      }
    }
  }
}
