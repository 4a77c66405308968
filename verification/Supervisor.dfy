// One worker process: the supervisor loop of run_forever and _execute, the signal handler, and a
// body thread for every step executed so far, interleaved statement by statement. Waits and joins
// may time out at any moment; a database error or a kill may end the supervisor at any point.
module Supervisor {
  import opened EventTypes

  datatype Outcome = Completed | Failed

  /** A body thread: in the step body, returned from it, past body_done.set(), and past the
      wake.set() that ends it. */
  datatype BodyPc = InBody | Returned | DoneSet | Exited

  /** outcome is the recorded list, None when an exception escaped the recorder. unasked is a
      history variable: the body returned before body_stop was set. */
  datatype Body = Body(pc: BodyPc, outcome: Option<Outcome>, stopAsked: bool, unasked: bool)

  datatype Disposition = Released(outcome: Outcome) | Surrendered | LeftToExpire | Abandoned

  /** finished_first, once the drain has read it. */
  datatype Captured = Unread | FinishedFirst | StillRunning

  /** One call of _execute. */
  datatype Execution = Execution(body: Body, captured: Captured, dispositions: seq<Disposition>)

  /** The supervisor's next statement. */
  datatype Pc =
    | LoopTest | Claiming | IdleWait
    | EntryClear | Reassert | Spawn
    | Wait | WakeClear | TestDone | JoinDone | ReleaseRow
    | TestStop | Capture | AskDrain | JoinDrain | ExpireRow
    | TestWoken | Renewing | AskAbandon | JoinAbandon | SetStop | SetWake
    | Gone

  datatype State = State(stop: bool, wake: bool, signals: nat, executions: seq<Execution>, pc: Pc, woken: bool)

  const INITIAL: State := State(false, false, 0, [], LoopTest, false)

  predicate Done(b: Body) {
    b.pc.DoneSet? || b.pc.Exited?
  }

  predicate Executing(pc: Pc) {
    pc.Wait? || pc.WakeClear? || pc.TestDone? || pc.JoinDone? || pc.ReleaseRow? || pc.TestStop? || pc.Capture?
    || pc.AskDrain? || pc.JoinDrain? || pc.ExpireRow? || pc.TestWoken? || pc.Renewing? || pc.AskAbandon? || pc.JoinAbandon?
  }

  /** The current _execute's body. */
  function Current(s: State): Body
    requires s.executions != []
  {
    s.executions[|s.executions| - 1].body
  }

  datatype Renewal = Renewed | FencedOut | RunOver

  datatype Action =
    | SignalStop | SignalWake
    | BodyReturns(i: nat, outcome: Outcome) | BodyEscapes(i: nat) | BodySetsDone(i: nat) | BodySetsWake(i: nat)
    | Supervise(claimed: bool, woken: bool, renewal: Renewal)
    | Fault

  predicate BodyAt(s: State, i: nat, pc: BodyPc) {
    i < |s.executions| && s.executions[i].body.pc == pc
  }

  predicate Enabled(s: State, a: Action) {
    match a
    case SignalStop => true
    case SignalWake => s.signals > 0
    case BodyReturns(i, _) => BodyAt(s, i, InBody)
    case BodyEscapes(i) => BodyAt(s, i, InBody)
    case BodySetsDone(i) => BodyAt(s, i, Returned)
    case BodySetsWake(i) => BodyAt(s, i, DoneSet)
    // A wait returns true only when the flag was set; it may time out whatever the flag is by then.
    case Supervise(_, woken, _) =>
      !s.pc.Gone? && (Executing(s.pc) ==> s.executions != []) && (s.pc.Wait? && woken ==> s.wake)
    case Fault => true
  }

  function WithBody(s: State, i: nat, b: Body): State
    requires i < |s.executions|
  {
    s.(executions := s.executions[i := s.executions[i].(body := b)])
  }

  function Last(s: State, e: Execution): State
    requires s.executions != []
  {
    s.(executions := s.executions[|s.executions| - 1 := e])
  }

  /** Record the disposition of the current _execute and go where it goes next. */
  function Dispose(s: State, d: Disposition, pc: Pc): State
    requires s.executions != []
  {
    var e := s.executions[|s.executions| - 1];
    Last(s, e.(dispositions := e.dispositions + [d])).(pc := pc)
  }

  function AskStop(s: State): State
    requires s.executions != []
  {
    WithBody(s, |s.executions| - 1, Current(s).(stopAsked := true))
  }

  /** One statement of the supervisor. */
  function Supervised(s: State, claimed: bool, woken: bool, renewal: Renewal): State
    requires Enabled(s, Supervise(claimed, woken, renewal))
  {
    match s.pc
    case LoopTest => s.(pc := if s.stop then Gone else Claiming)
    case Claiming => s.(pc := if claimed then EntryClear else IdleWait)
    case IdleWait => s.(pc := LoopTest)
    case EntryClear => s.(wake := false, pc := Reassert)
    case Reassert => s.(wake := s.wake || s.stop, pc := Spawn)
    case Spawn =>
      s.(executions := s.executions + [Execution(Body(InBody, None, false, false), Unread, [])], pc := Wait)
    case Wait => s.(woken := woken, pc := WakeClear)
    case WakeClear => s.(wake := false, pc := TestDone)
    case TestDone => s.(pc := if Done(Current(s)) then JoinDone else TestStop)
    case JoinDone => s.(pc := ReleaseRow)
    case ReleaseRow =>
      Dispose(s, Released(if Current(s).outcome.Some? then Current(s).outcome.value else Failed), LoopTest)
    case TestStop => s.(pc := if s.stop then Capture else TestWoken)
    case Capture =>
      var finished := if Done(Current(s)) then FinishedFirst else StillRunning;
      Last(s, s.executions[|s.executions| - 1].(captured := finished)).(pc := AskDrain)
    case AskDrain => AskStop(s).(pc := JoinDrain)
    case JoinDrain =>
      if s.executions[|s.executions| - 1].captured.FinishedFirst? then s.(pc := ReleaseRow)
      else if Current(s).pc.Exited? then s.(pc := ExpireRow)
      else Dispose(s, LeftToExpire, LoopTest)
    case ExpireRow => Dispose(s, Surrendered, LoopTest)
    case TestWoken => s.(pc := if s.woken then Wait else Renewing)
    case Renewing => s.(pc := if renewal.Renewed? then Wait else AskAbandon)
    case AskAbandon => AskStop(s).(pc := JoinAbandon)
    case JoinAbandon => Dispose(s, Abandoned, if Current(s).pc.Exited? then LoopTest else SetStop)
    case SetStop => s.(stop := true, pc := SetWake)
    case SetWake => s.(wake := true, pc := LoopTest)
  }

  function Next(s: State, a: Action): State
    requires Enabled(s, a)
  {
    match a
    case SignalStop => s.(stop := true, signals := s.signals + 1)
    case SignalWake => s.(wake := true, signals := s.signals - 1)
    case BodyReturns(i, outcome) =>
      var b := s.executions[i].body;
      WithBody(s, i, b.(pc := Returned, outcome := Some(outcome), unasked := !b.stopAsked))
    case BodyEscapes(i) =>
      var b := s.executions[i].body;
      WithBody(s, i, b.(pc := Returned, unasked := !b.stopAsked))
    case BodySetsDone(i) => WithBody(s, i, s.executions[i].body.(pc := DoneSet))
    case BodySetsWake(i) => WithBody(s, i, s.executions[i].body.(pc := Exited)).(wake := true)
    case Supervise(claimed, woken, renewal) => Supervised(s, claimed, woken, renewal)
    case Fault => s.(pc := Gone)
  }

  function Reach(actions: seq<Action>): State {
    if actions == [] then INITIAL
    else
      var s := Reach(actions[..|actions| - 1]);
      if Enabled(s, actions[|actions| - 1]) then Next(s, actions[|actions| - 1]) else s
  }

  // ----- the invariant ------------------------------------------------------------------

  /** Every execution's body has ended, except perhaps the last n. */
  ghost predicate EndedBut(s: State, n: nat) {
    forall i :: 0 <= i < |s.executions| - n ==> Done(s.executions[i].body)
  }

  /** No two bodies are ever in their steps together, and none is when the worker claims. After an
      abandon or a drain whose body would not stop one may be, but then a stop is set or coming. */
  ghost predicate OneBody(s: State) {
    && EndedBut(s, 1)
    && match s.pc
       case LoopTest => s.stop || EndedBut(s, 0)
       case Claiming => EndedBut(s, 0)
       case IdleWait => EndedBut(s, 0)
       case EntryClear => EndedBut(s, 0)
       case Reassert => EndedBut(s, 0)
       case Spawn => EndedBut(s, 0)
       case SetWake => s.stop
       case _ => true
  }

  predicate StopAnnounced(s: State) {
    s.stop ==> s.wake || s.signals > 0
  }

  predicate DoneAnnounced(s: State)
    requires s.executions != []
  {
    Done(Current(s)) ==> s.wake || Current(s).pc.DoneSet?
  }

  /** Between the tests of the two flags and the wait, whichever is set has woken the supervisor
      or its setter is about to. */
  ghost predicate NoLostWake(s: State) {
    match s.pc
    case Spawn => StopAnnounced(s)
    case TestStop => s.executions != [] && DoneAnnounced(s)
    case TestWoken => s.executions != [] && DoneAnnounced(s) && StopAnnounced(s)
    case Renewing => s.executions != [] && DoneAnnounced(s) && StopAnnounced(s)
    case Wait => s.executions != [] && DoneAnnounced(s) && StopAnnounced(s)
    case _ => true
  }

  /** What the current _execute has established by its next statement. */
  predicate Established(pc: Pc, stop: bool, e: Execution) {
    && e.dispositions == []
    && match pc
       case JoinDone => Done(e.body) && e.captured.Unread?
       case ReleaseRow => Done(e.body) && !e.captured.StillRunning?
       case Capture => stop && e.captured.Unread?
       case AskDrain => stop && !e.captured.Unread? && (e.captured.FinishedFirst? ==> Done(e.body))
       case JoinDrain => stop && !e.captured.Unread? && (e.captured.FinishedFirst? ==> Done(e.body))
       case ExpireRow => e.captured.StillRunning? && e.body.pc.Exited?
       case _ => e.captured.Unread?
  }

  predicate Progress(s: State) {
    Executing(s.pc) ==> s.executions != [] && Established(s.pc, s.stop, s.executions[|s.executions| - 1])
  }

  /** What each disposition was taken on. */
  ghost predicate Justified(e: Execution) {
    && |e.dispositions| <= 1
    && (forall k :: 0 <= k < |e.dispositions| ==>
          match e.dispositions[k]
          case Released(o) =>
            Done(e.body) && !e.captured.StillRunning?
            && o == (if e.body.outcome.Some? then e.body.outcome.value else Failed)
          case Surrendered => e.body.pc.Exited? && e.captured.StillRunning?
          case LeftToExpire => e.captured.StillRunning?
          case Abandoned => e.captured.Unread?)
  }

  ghost predicate AllJustified(s: State) {
    forall i :: 0 <= i < |s.executions| ==> Justified(s.executions[i])
  }

  /** Every _execute that has returned took its disposition. */
  ghost predicate EachDisposed(s: State) {
    !s.pc.Gone? ==>
      forall i :: 0 <= i < |s.executions| - (if Executing(s.pc) then 1 else 0) ==> |s.executions[i].dispositions| == 1
  }

  ghost predicate Inv(s: State) {
    OneBody(s) && NoLostWake(s) && Progress(s) && AllJustified(s) && EachDisposed(s)
  }

  // ----- preservation -------------------------------------------------------------------

  /** A statement of the supervisor moves no body; only Spawn adds one. */
  lemma BodiesStand(s: State, a: Action)
    requires Progress(s) && a.Supervise? && Enabled(s, a)
    ensures var s' := Next(s, a);
            && |s'.executions| == |s.executions| + (if s.pc.Spawn? then 1 else 0)
            && (forall i :: 0 <= i < |s.executions| ==> s'.executions[i].body.pc == s.executions[i].body.pc)
            && (s.stop ==> s'.stop)
  {
  }

  /** The ways into and out of the statements that may find a body running. */
  lemma PcMoves(s: State, a: Action)
    requires Progress(s) && a.Supervise? && Enabled(s, a)
    ensures var pc' := Next(s, a).pc;
            && (s.pc.LoopTest? ==> if s.stop then pc'.Gone? else pc'.Claiming?)
            && (s.pc.SetStop? ==> pc'.SetWake? && Next(s, a).stop) && (s.pc.SetWake? ==> pc'.LoopTest?)
            && (pc'.LoopTest? ==>
                  s.stop || s.pc.IdleWait? || s.pc.SetWake? || (Executing(s.pc) && Done(Current(s))))
            && (pc'.SetWake? ==> s.pc.SetStop?) && (pc'.Claiming? ==> s.pc.LoopTest?)
            && (pc'.IdleWait? || pc'.EntryClear? ==> s.pc.Claiming?)
            && (pc'.Reassert? ==> s.pc.EntryClear?) && (pc'.Spawn? ==> s.pc.Reassert?)
  {
  }

  lemma OneBodyKept(s: State, a: Action)
    requires OneBody(s) && Progress(s) && a.Supervise? && Enabled(s, a)
    ensures OneBody(Next(s, a))
  {
    BodiesStand(s, a);
    PcMoves(s, a);
    hide Next, Enabled;
  }

  lemma NoLostWakeKept(s: State, a: Action)
    requires NoLostWake(s) && Progress(s) && a.Supervise? && Enabled(s, a)
    ensures NoLostWake(Next(s, a))
  {
  }

  /** Within an _execute a statement changes nothing of the record but finished_first. */
  lemma RecordStands(s: State, a: Action)
    requires Progress(s) && a.Supervise? && Enabled(s, a) && Executing(s.pc) && Executing(Next(s, a).pc)
    ensures var s' := Next(s, a);
            && |s'.executions| == |s.executions|
            && var e, e' := s.executions[|s.executions| - 1], s'.executions[|s.executions| - 1];
               && e'.dispositions == e.dispositions && e'.body.pc == e.body.pc
               && e'.captured == if !s.pc.Capture? then e.captured else if Done(e.body) then FinishedFirst else StillRunning
  {
  }

  /** The order of the statements within an _execute. */
  predicate Precedes(pc: Pc, pc': Pc, stop: bool, e: Execution) {
    match pc'
    case Wait => pc.Renewing? || pc.TestWoken?
    case WakeClear => pc.Wait?
    case TestDone => pc.WakeClear?
    case JoinDone => pc.TestDone? && Done(e.body)
    case ReleaseRow => pc.JoinDone? || (pc.JoinDrain? && e.captured.FinishedFirst?)
    case TestStop => pc.TestDone?
    case Capture => pc.TestStop? && stop
    case AskDrain => pc.Capture?
    case JoinDrain => pc.AskDrain?
    case ExpireRow => pc.JoinDrain? && !e.captured.FinishedFirst? && e.body.pc.Exited?
    case TestWoken => pc.TestStop?
    case Renewing => pc.TestWoken?
    case AskAbandon => pc.Renewing?
    case JoinAbandon => pc.AskAbandon?
    case _ => false
  }

  lemma OrderKept(s: State, a: Action)
    requires Progress(s) && a.Supervise? && Enabled(s, a) && Executing(s.pc) && Executing(Next(s, a).pc)
    ensures Precedes(s.pc, Next(s, a).pc, s.stop, s.executions[|s.executions| - 1])
    ensures Next(s, a).stop == s.stop
  {
  }

  lemma ProgressKept(s: State, a: Action)
    requires Progress(s) && a.Supervise? && Enabled(s, a)
    ensures Progress(Next(s, a))
  {
    if Executing(s.pc) && Executing(Next(s, a).pc) {
      RecordStands(s, a);
      OrderKept(s, a);
      hide Next, Enabled;
    }
  }

  /** A statement outside an _execute leaves every record, and one inside leaves all but its own. */
  lemma OthersStand(s: State, a: Action)
    requires Progress(s) && a.Supervise? && Enabled(s, a)
    ensures var s' := Next(s, a);
            && |s'.executions| == |s.executions| + (if s.pc.Spawn? then 1 else 0)
            && (forall i :: 0 <= i < |s.executions| - (if Executing(s.pc) then 1 else 0) ==>
                  s'.executions[i] == s.executions[i])
            && (s.pc.Spawn? ==> s'.executions[|s.executions|].dispositions == [] && Executing(s'.pc))
  {
  }

  /** An _execute that returns has taken one disposition, and was entitled to it. */
  lemma OwnDisposition(s: State, a: Action)
    requires Progress(s) && a.Supervise? && Enabled(s, a) && Executing(s.pc)
    ensures var s' := Next(s, a);
            && |s'.executions| == |s.executions|
            && Justified(s'.executions[|s.executions| - 1])
            && |s'.executions[|s.executions| - 1].dispositions| == (if Executing(s'.pc) then 0 else 1)
  {
  }

  lemma OnlyWithin(s: State, a: Action)
    requires Progress(s) && a.Supervise? && Enabled(s, a) && Executing(Next(s, a).pc)
    ensures Executing(s.pc) || s.pc.Spawn?
  {
  }

  lemma JustifiedKept(s: State, a: Action)
    requires AllJustified(s) && Progress(s) && a.Supervise? && Enabled(s, a)
    ensures AllJustified(Next(s, a))
  {
    OthersStand(s, a);
    if Executing(s.pc) {
      OwnDisposition(s, a);
    }
    hide Next, Enabled, Progress;
    var s' := Next(s, a);
    forall i | 0 <= i < |s'.executions| ensures Justified(s'.executions[i]) {
      assert i < |s.executions| ==> Justified(s.executions[i]);
    }
  }

  lemma DisposedKept(s: State, a: Action)
    requires EachDisposed(s) && Progress(s) && a.Supervise? && Enabled(s, a)
    ensures EachDisposed(Next(s, a))
  {
    OthersStand(s, a);
    if Executing(s.pc) {
      OwnDisposition(s, a);
    }
    if Executing(Next(s, a).pc) {
      OnlyWithin(s, a);
    }
    assert !s.pc.Gone?;
    hide Next, Enabled, Progress;
  }

  lemma SupervisorKeeps(s: State, a: Action)
    requires Inv(s) && a.Supervise? && Enabled(s, a)
    ensures Inv(Next(s, a))
  {
    hide OneBody, NoLostWake, Progress, AllJustified, EachDisposed, Next, Enabled;
    OneBodyKept(s, a);
    NoLostWakeKept(s, a);
    ProgressKept(s, a);
    JustifiedKept(s, a);
    DisposedKept(s, a);
  }

  /** A thread other than the supervisor only moves its body forward and only sets flags. */
  ghost predicate ThreadMove(s: State, s': State) {
    && s'.pc == s.pc && (s.stop ==> s'.stop) && (s.wake ==> s'.wake)
    && (StopAnnounced(s) ==> StopAnnounced(s'))
    && |s'.executions| == |s.executions|
    && forall i :: 0 <= i < |s.executions| ==> RecordMove(s.executions[i], s'.executions[i], s'.wake)
  }

  predicate RecordMove(e: Execution, e': Execution, wake: bool) {
    && e'.dispositions == e.dispositions && e'.captured == e.captured
    && (Done(e.body) ==> Done(e'.body) && e'.body.outcome == e.body.outcome)
    && (e.body.pc.Exited? ==> e'.body.pc.Exited?)
    && (e'.body.pc.Exited? && !e.body.pc.Exited? ==> wake)
  }

  lemma ThreadsMove(s: State, a: Action)
    requires !a.Supervise? && !a.Fault? && Enabled(s, a)
    ensures ThreadMove(s, Next(s, a))
  {
  }

  lemma ThreadMoveKeeps(s: State, s': State)
    requires Inv(s) && ThreadMove(s, s')
    ensures Inv(s')
  {
    forall i | 0 <= i < |s'.executions| ensures Justified(s'.executions[i]) {
      assert Justified(s.executions[i]);
    }
  }

  lemma ThreadsKeep(s: State, a: Action)
    requires Inv(s) && !a.Supervise? && Enabled(s, a)
    ensures Inv(Next(s, a))
  {
    if !a.Fault? {
      ThreadsMove(s, a);
      hide Next, Enabled, Inv;
      ThreadMoveKeeps(s, Next(s, a));
    }
  }

  lemma {:induction false} ReachableSupervisor(actions: seq<Action>)
    ensures Inv(Reach(actions))
  {
    if actions != [] {
      var a := actions[|actions| - 1];
      var s := Reach(actions[..|actions| - 1]);
      ReachableSupervisor(actions[..|actions| - 1]);
      if Enabled(s, a) {
        if a.Supervise? {
          SupervisorKeeps(s, a);
        } else {
          ThreadsKeep(s, a);
        }
      }
    }
  }

  // ----- what holds over every interleaving ---------------------------------------------

  /** A stop or a completion is never lost: when the supervisor is about to wait and either is set,
      the wake flag is set or the thread that set it has not yet run its own wake.set(). */
  lemma WaitMissesNothing(actions: seq<Action>)
    requires Reach(actions).pc.Wait?
    ensures var s := Reach(actions);
            && s.executions != []
            && (s.stop ==> s.wake || s.signals > 0)
            && (Done(Current(s)) ==> s.wake || Current(s).pc.DoneSet?)
  {
    ReachableSupervisor(actions);
  }

  /** From the claim to the new body's start no earlier body is still in its step. */
  lemma NeverClaimsBesideABody(actions: seq<Action>, i: nat)
    requires var s := Reach(actions);
             i < |s.executions| && (s.pc.Claiming? || s.pc.EntryClear? || s.pc.Reassert? || s.pc.Spawn?)
    ensures Done(Reach(actions).executions[i].body)
  {
    ReachableSupervisor(actions);
    assert EndedBut(Reach(actions), 0);
  }

  /** Two bodies of one worker are never in their steps together, whatever was signalled. */
  lemma OneBodyAtATime(actions: seq<Action>, i: nat, j: nat)
    requires i < j < |Reach(actions).executions|
    ensures Done(Reach(actions).executions[i].body)
  {
    ReachableSupervisor(actions);
    assert EndedBut(Reach(actions), 1);
  }

  /** Each _execute takes at most one disposition, and exactly one by the time it returns. A release
      or a surrender is written only once the body has ended, a release carries the recorded outcome
      ('failed' when none was recorded), and a drain surrenders exactly what it found unfinished. */
  lemma OneDisposition(actions: seq<Action>, i: nat)
    requires i < |Reach(actions).executions|
    ensures var s := Reach(actions);
            var e := s.executions[i];
            && |e.dispositions| <= 1
            && (!s.pc.Gone? && !(i == |s.executions| - 1 && Executing(s.pc)) ==> |e.dispositions| == 1)
            && (i == |s.executions| - 1 && (s.pc.ReleaseRow? || s.pc.ExpireRow?) ==> Done(e.body) && e.dispositions == [])
            && (e.dispositions != [] ==>
                  && (e.dispositions[0].Released? ==>
                        Done(e.body)
                        && e.dispositions[0].outcome == if e.body.outcome.Some? then e.body.outcome.value else Failed)
                  && (e.dispositions[0].Surrendered? ==> e.body.pc.Exited?)
                  && (e.captured.StillRunning? <==> e.dispositions[0].Surrendered? || e.dispositions[0].LeftToExpire?)
                  && (e.captured.FinishedFirst? ==> e.dispositions[0].Released?))
  {
    ReachableSupervisor(actions);
    assert Justified(Reach(actions).executions[i]);
  }

  // ----- what must happen next ----------------------------------------------------------

  /** The _execute numbered k has been told its claim is lost or its run over: until it returns it only
      asks its body to stop and joins it, it returns abandoned, and no claim follows unless the body
      has exited. */
  ghost predicate GivingUp(s: State, k: nat) {
    && k < |s.executions|
    && var e := s.executions[k];
       && (e.dispositions == [] || e.dispositions == [Abandoned])
       && (e.dispositions == [Abandoned] ==> e.body.stopAsked)
       && (if |s.executions| == k + 1 && Executing(s.pc)
           then e.dispositions == [] && (s.pc.AskAbandon? || (s.pc.JoinAbandon? && e.body.stopAsked))
           else
             && (!s.pc.Gone? ==> e.dispositions == [Abandoned])
             && (e.body.pc.Exited? || s.pc.Gone?
                 || (|s.executions| == k + 1 && (s.pc.SetStop? || (s.stop && (s.pc.SetWake? || s.pc.LoopTest?))))))
  }

  lemma GivingUpStatement(s: State, k: nat, a: Action)
    requires GivingUp(s, k) && a.Supervise? && Enabled(s, a)
    ensures GivingUp(Next(s, a), k)
  {
    if |s.executions| == k + 1 && Executing(s.pc) {
      GivingUpEnds(s, k, a);
    } else {
      GivenUpStays(s, k, a);
    }
  }

  lemma GivingUpEnds(s: State, k: nat, a: Action)
    requires GivingUp(s, k) && a.Supervise? && Enabled(s, a) && |s.executions| == k + 1 && Executing(s.pc)
    ensures GivingUp(Next(s, a), k)
  {
  }

  lemma GivenUpStays(s: State, k: nat, a: Action)
    requires GivingUp(s, k) && a.Supervise? && Enabled(s, a) && !(|s.executions| == k + 1 && Executing(s.pc))
    ensures GivingUp(Next(s, a), k)
  {
    var s' := Next(s, a);
    assert |s'.executions| >= |s.executions|;
    assert s'.executions[k] == s.executions[k];
  }

  lemma GivingUpOthers(s: State, k: nat, a: Action)
    requires GivingUp(s, k) && !a.Supervise? && Enabled(s, a)
    ensures GivingUp(Next(s, a), k)
  {
  }

  lemma {:induction false} GivesUp(actions: seq<Action>, n: nat, k: nat)
    requires n <= |actions| && GivingUp(Reach(actions[..n]), k)
    ensures GivingUp(Reach(actions), k)
  {
    if n == |actions| {
      assert actions[..n] == actions;
    } else {
      var m := |actions| - 1;
      assert actions[..m][..n] == actions[..n];
      GivesUp(actions[..m], n, k);
      GivingUpStep(Reach(actions[..m]), k, actions[m]);
      hide Next, Enabled, GivingUp;
    }
  }

  lemma GivingUpStep(s: State, k: nat, a: Action)
    requires GivingUp(s, k)
    ensures Enabled(s, a) ==> GivingUp(Next(s, a), k)
  {
    hide Next, GivingUp;
    if Enabled(s, a) {
      if a.Supervise? {
        GivingUpStatement(s, k, a);
      } else {
        GivingUpOthers(s, k, a);
      }
    }
  }

  /** A renewal that is fenced out, or finds the run over, gives the step up: in whatever happens
      afterwards that _execute neither waits nor renews again, has asked its body to stop when it
      returns, and has no other disposition than Abandoned; and the worker is at a claim again only if
      that body has exited. */
  lemma LostClaimIsAbandoned(actions: seq<Action>, i: nat)
    requires i < |actions| && Reach(actions[..i]).pc.Renewing? && Enabled(Reach(actions[..i]), actions[i])
    requires actions[i].Supervise? && (actions[i].renewal == FencedOut || actions[i].renewal == RunOver)
    ensures var s, k := Reach(actions), |Reach(actions[..i]).executions| - 1;
            && 0 <= k < |s.executions|
            && var e := s.executions[k];
               && (|s.executions| == k + 1 && Executing(s.pc) ==> s.pc.AskAbandon? || s.pc.JoinAbandon?)
               && (s.pc.Claiming? ==> e.dispositions == [Abandoned] && e.body.stopAsked && e.body.pc.Exited?)
               && (forall d :: d in e.dispositions ==> d == Abandoned && e.body.stopAsked)
               && (!s.pc.Gone? && !(|s.executions| == k + 1 && Executing(s.pc)) ==> e.dispositions == [Abandoned])
  {
    hide Reach, Next, Enabled, Progress;
    var before, k := Reach(actions[..i]), |Reach(actions[..i]).executions| - 1;
    ProgressThere(actions[..i]);
    ReachOn(actions, i);
    RenewalLost(before, actions[i]);
    GivesUp(actions, i + 1, k);
  }

  lemma ProgressThere(actions: seq<Action>)
    ensures Progress(Reach(actions))
  {
    ReachableSupervisor(actions);
  }

  lemma ReachOn(actions: seq<Action>, i: nat)
    requires i < |actions|
    ensures var s := Reach(actions[..i]);
            Reach(actions[..i + 1]) == if Enabled(s, actions[i]) then Next(s, actions[i]) else s
  {
    assert actions[..i + 1][..i] == actions[..i];
  }

  lemma RenewalLost(s: State, a: Action)
    requires Progress(s) && s.pc.Renewing? && a.Supervise? && Enabled(s, a) && !a.renewal.Renewed?
    ensures s.executions != [] && GivingUp(Next(s, a), |s.executions| - 1)
  {
  }

  /** One that goes through goes back to waiting, and takes no disposition. */
  lemma RenewedWaits(s: State, a: Action)
    requires s.pc.Renewing? && a.Supervise? && Enabled(s, a) && a.renewal == Renewed
    ensures Next(s, a) == s.(pc := Wait)
  {
  }

  /** Statements left before an _execute that a stop or a completion ends has returned. */
  function Left(s: State): nat
    requires Executing(s.pc)
  {
    match s.pc
    case TestStop => if s.stop then 7 else 13
    case TestWoken => 12
    case Renewing => 11
    case Wait => 10
    case WakeClear => 9
    case TestDone => 8
    case Capture => 6
    case AskDrain => 5
    case JoinDrain => 4
    case JoinDone => 3
    case AskAbandon => 3
    case JoinAbandon => 2
    case ReleaseRow => 2
    case ExpireRow => 2
  }

  /** A stop is set, or the running body has ended. */
  predicate Ending(s: State)
    requires s.executions != []
  {
    s.stop || Done(Current(s))
  }

  /** A stop, or the body's completion, ends the _execute: each of its statements returns, or leaves
      fewer to go, whatever is woken or renewed. */
  lemma EndIsNear(s: State, a: Action)
    requires Progress(s) && Executing(s.pc) && a.Supervise? && Enabled(s, a) && Ending(s)
    ensures var s' := Next(s, a);
            && |s'.executions| == |s.executions|
            && (Executing(s'.pc) ==> Ending(s') && Left(s') < Left(s))
  {
  }

  /** What happens on the threads meanwhile adds none. */
  lemma EndNoFurther(s: State, a: Action)
    requires Progress(s) && Executing(s.pc) && !a.Supervise? && !a.Fault? && Enabled(s, a) && Ending(s)
    ensures var s' := Next(s, a);
            s'.pc == s.pc && |s'.executions| == |s.executions| && Ending(s') && Left(s') <= Left(s)
  {
  }

  /** The supervisor's statements among the actions from i on. */
  function Statements(actions: seq<Action>, i: nat): nat
    requires i <= |actions|
    decreases |actions| - i
  {
    if i == |actions| then 0 else (if actions[i].Supervise? then 1 else 0) + Statements(actions, i + 1)
  }

  lemma {:induction false} StatementsSnoc(actions: seq<Action>, i: nat)
    requires i < |actions|
    ensures Statements(actions, i)
            == Statements(actions[..|actions| - 1], i) + if actions[|actions| - 1].Supervise? then 1 else 0
    decreases |actions| - i
  {
    if i + 1 < |actions| {
      StatementsSnoc(actions, i + 1);
    }
  }

  /** Every action of the sequence, from i on, could be taken when it was, and none was a fault. */
  ghost predicate Taken(actions: seq<Action>, i: nat) {
    forall k :: i <= k < |actions| ==> !actions[k].Fault? && Enabled(Reach(actions[..k]), actions[k])
  }

  /** The _execute numbered n - 1 has returned, or has this much less to go. */
  ghost predicate Serving(n: nat, bound: nat, s: State, statements: nat) {
    || |s.executions| > n
    || (|s.executions| == n && !Executing(s.pc))
    || (|s.executions| == n && n > 0 && Ending(s) && Left(s) + statements <= bound)
  }

  lemma ServingOn(n: nat, bound: nat, s: State, count: nat, a: Action)
    requires Serving(n, bound, s, count) && Progress(s) && Enabled(s, a) && !a.Fault?
    ensures Serving(n, bound, Next(s, a), count + if a.Supervise? then 1 else 0)
  {
    if |s.executions| == n && Executing(s.pc) {
      if a.Supervise? {
        EndIsNear(s, a);
      } else {
        EndNoFurther(s, a);
      }
      hide Next, Enabled, Progress;
    } else {
      OutsideStays(s, a);
      hide Next, Enabled, Progress;
    }
  }

  /** Outside an _execute the next one to begin is a new one. */
  lemma OutsideStays(s: State, a: Action)
    requires Progress(s) && Enabled(s, a) && !a.Fault?
    ensures |Next(s, a).executions| >= |s.executions|
    ensures !Executing(s.pc) && Executing(Next(s, a).pc) ==> |Next(s, a).executions| > |s.executions|
  {
    hide Next, Enabled, Progress;
    if a.Supervise? {
      OthersStand(s, a);
      if Executing(Next(s, a).pc) {
        OnlyWithin(s, a);
      }
    } else {
      ThreadsMove(s, a);
    }
  }

  lemma {:induction false} Serves(actions: seq<Action>, i: nat)
    requires i <= |actions| && Taken(actions, i)
    requires var s := Reach(actions[..i]); Executing(s.pc) && s.executions != [] && Ending(s)
    ensures var s := Reach(actions[..i]); Serving(|s.executions|, Left(s), Reach(actions), Statements(actions, i))
  {
    hide Next, Enabled, Left, Progress, Serving, Reach, Ending;
    if i == |actions| {
      assert actions[..i] == actions;
      ServingStarts(Reach(actions));
    } else {
      var m := |actions| - 1;
      var before, start := actions[..m], Reach(actions[..i]);
      assert before[..i] == actions[..i] && actions[..m + 1] == actions;
      assert forall k :: i <= k < m ==> before[..k] == actions[..k] && before[k] == actions[k];
      Serves(before, i);
      ProgressThere(before);
      StatementsSnoc(actions, i);
      ReachOn(actions, m);
      ServingOn(|start.executions|, Left(start), Reach(before), Statements(before, i), actions[m]);
    }
  }

  lemma ServingStarts(s: State)
    requires Executing(s.pc) && s.executions != [] && Ending(s)
    ensures Serving(|s.executions|, Left(s), s, 0)
  {
  }

  /** A stop, and a completion, are served: from any moment of an _execute at which a stop is set or its
      body has ended, at most thirteen more statements of the supervisor see it return, with any signals and
      any body's progress between. */
  lemma EndIsServed(actions: seq<Action>, i: nat)
    requires i <= |actions| && Taken(actions, i)
    requires var s := Reach(actions[..i]); Executing(s.pc) && s.executions != [] && (s.stop || Done(Current(s)))
    ensures var s, n := Reach(actions), |Reach(actions[..i]).executions|;
            |s.executions| > n || (|s.executions| == n && !Executing(s.pc)) || Statements(actions, i) < 13
  {
    hide Reach;
    Serves(actions, i);
  }

  // ----- a wait that times out ----------------------------------------------------------

  /** The statements from a wait to the renewal, when neither flag is found set. */
  const TICK: seq<Pc> := [Wait, WakeClear, TestDone, TestStop, TestWoken, Renewing]

  /** So many statements after a wait that timed out, unless a stop or a completion has come. */
  ghost predicate Ticking(n: nat, s: State, count: nat) {
    && |s.executions| >= n
    && (|s.executions| == n && n > 0 && !Ending(s) && count < |TICK| ==> s.pc == TICK[count] && (count > 0 ==> !s.woken))
  }

  lemma TickOn(n: nat, s: State, count: nat, a: Action)
    requires Ticking(n, s, count) && Progress(s) && Enabled(s, a) && !a.Fault? && n > 0
    requires count == 0 && a.Supervise? ==> !a.woken
    ensures Ticking(n, Next(s, a), count + if a.Supervise? then 1 else 0)
  {
    OutsideStays(s, a);
    if |Next(s, a).executions| == n && !Ending(Next(s, a)) {
      NotYetEnding(s, a);
    }
  }

  /** A flag once set stays so. */
  lemma NotYetEnding(s: State, a: Action)
    requires Progress(s) && Enabled(s, a) && s.executions != [] && |Next(s, a).executions| == |s.executions|
    ensures Ending(s) ==> Ending(Next(s, a))
  {
  }

  /** The first supervisor statement of the sequence, from i on, is this one. */
  lemma {:induction false} Ticks(actions: seq<Action>, i: nat)
    requires i < |actions| && Taken(actions, i) && actions[i].Supervise? && !actions[i].woken
    requires Reach(actions[..i]).pc.Wait? && Reach(actions[..i]).executions != []
    ensures Ticking(|Reach(actions[..i]).executions|, Reach(actions), Statements(actions, i)) && Statements(actions, i) > 0
  {
    hide Next, Enabled, Progress, Ticking, Reach;
    var m := |actions| - 1;
    var before, start := actions[..m], Reach(actions[..i]);
    assert before[..i] == actions[..i] && actions[..m + 1] == actions;
    assert forall k :: i <= k < m ==> before[..k] == actions[..k] && before[k] == actions[k];
    if i == m {
      TickStarts(start);
      assert Statements(before, i) == 0;
    } else {
      Ticks(before, i);
    }
    ProgressThere(before);
    StatementsSnoc(actions, i);
    ReachOn(actions, m);
    TickOn(|start.executions|, Reach(before), Statements(before, i), actions[m]);
  }

  lemma TickStarts(s: State)
    requires s.pc.Wait?
    ensures Ticking(|s.executions|, s, 0)
  {
  }

  /** The heartbeat: a wait that times out while neither a stop nor a completion comes is followed by a
      renewal, five statements later, with anything on the other threads between. */
  lemma TimeoutRenews(actions: seq<Action>, i: nat)
    requires i < |actions| && Taken(actions, i) && actions[i].Supervise? && !actions[i].woken
    requires Reach(actions[..i]).pc.Wait? && Reach(actions[..i]).executions != [] && Statements(actions, i) == 5
    ensures var s := Reach(actions);
            |s.executions| == |Reach(actions[..i]).executions| && !s.stop && !Done(Current(s)) ==> s.pc == Renewing
  {
    hide Reach, Enabled;
    Ticks(actions, i);
  }

  // ----- who sets the flags -------------------------------------------------------------

  /** The supervisor clears the wake flag where an _execute begins and after each wait and nowhere else,
      sets it again where a stop is already set, and requests a stop itself only when a body it abandoned
      would not end. */
  lemma FlagsAre(s: State, a: Action)
    requires Progress(s) && a.Supervise? && Enabled(s, a)
    ensures var s' := Next(s, a);
            && s'.stop == (s.stop || s.pc == SetStop) && s'.signals == s.signals
            && (s'.wake <==> if s.pc == EntryClear || s.pc == WakeClear then false
                             else s.wake || s.pc == SetWake || (s.pc == Reassert && s.stop))
            && (s'.pc == SetStop <==> s.pc == JoinAbandon && !Current(s).pc.Exited?)
  {
  }

  /** A poll claims unless a stop is set, executes what it claimed, and otherwise waits and polls again. */
  lemma PollsUntilStopped(s: State, a: Action)
    requires Progress(s) && a.Supervise? && Enabled(s, a)
    ensures var s' := Next(s, a);
            && (s.pc == LoopTest ==> s' == s.(pc := if s.stop then Gone else Claiming))
            && (s.pc == Claiming ==> s' == s.(pc := if a.claimed then EntryClear else IdleWait))
            && (s.pc == IdleWait ==> s' == s.(pc := LoopTest))
            && (s'.pc == Gone ==> s.pc == LoopTest && s.stop)
  {
  }

  function Go(woken: bool): Action {
    Supervise(true, woken, Renewed)
  }

  lemma Then(actions: seq<Action>, s: State, a: Action, s': State)
    requires Reach(actions) == s && Enabled(s, a) && Next(s, a) == s'
    ensures Reach(actions + [a]) == s'
  {
    assert (actions + [a])[..|actions|] == actions;
  }

  function OneExecution(pc: BodyPc, outcome: Option<Outcome>, asked: bool, unasked: bool, captured: Captured): seq<Execution> {
    [Execution(Body(pc, outcome, asked, unasked), captured, [])]
  }

  const RUNNING: seq<Execution> := OneExecution(InBody, None, false, false, Unread)

  /** A claim and a body started, up to the first wait. */
  lemma BodyStarts() returns (actions: seq<Action>)
    ensures Reach(actions) == State(false, false, 0, RUNNING, Wait, false)
  {
    assert Reach([]) == INITIAL;
    hide Reach;
    actions := [];
    var pcs := [LoopTest, Claiming, EntryClear, Reassert, Spawn];
    for k := 0 to 4
      invariant Reach(actions) == INITIAL.(pc := pcs[k])
    {
      Then(actions, INITIAL.(pc := pcs[k]), Go(false), INITIAL.(pc := pcs[k + 1]));
      actions := actions + [Go(false)];
    }
    Then(actions, INITIAL.(pc := Spawn), Go(false), State(false, false, 0, RUNNING, Wait, false));
    actions := actions + [Go(false)];
  }

  /** A stop signalled while the body runs, up to the capture of finished_first. */
  lemma DrainBegins() returns (actions: seq<Action>)
    ensures Reach(actions) == State(true, false, 0, RUNNING, Capture, true)
  {
    hide Reach, OneExecution;
    actions := BodyStarts();
    var waiting := State(false, false, 0, RUNNING, Wait, false);
    Then(actions, waiting, SignalStop, waiting.(stop := true, signals := 1));
    actions := actions + [SignalStop];
    Then(actions, waiting.(stop := true, signals := 1), SignalWake, waiting.(stop := true, wake := true));
    actions := actions + [SignalWake];
    actions := DrainTests(actions);
  }

  lemma DrainTests(before: seq<Action>) returns (actions: seq<Action>)
    requires Reach(before) == State(true, true, 0, RUNNING, Wait, false)
    ensures Reach(actions) == State(true, false, 0, RUNNING, Capture, true)
  {
    hide Reach;
    actions := before;
    Then(actions, State(true, true, 0, RUNNING, Wait, false), Go(true), State(true, true, 0, RUNNING, WakeClear, true));
    actions := actions + [Go(true)];
    Then(actions, State(true, true, 0, RUNNING, WakeClear, true), Go(false), State(true, false, 0, RUNNING, TestDone, true));
    actions := actions + [Go(false)];
    Then(actions, State(true, false, 0, RUNNING, TestDone, true), Go(false), State(true, false, 0, RUNNING, TestStop, true));
    actions := actions + [Go(false)];
    Then(actions, State(true, false, 0, RUNNING, TestStop, true), Go(false), State(true, false, 0, RUNNING, Capture, true));
    actions := actions + [Go(false)];
  }

  lemma DisposeOnly(s: State, e: Execution, d: Disposition, pc: Pc)
    requires s.executions == [e] && e.dispositions == []
    ensures Dispose(s, d, pc) == s.(executions := [e.(dispositions := [d])], pc := pc)
  {
    assert [e][0 := e.(dispositions := [d])] == [e.(dispositions := [d])];
    assert e.dispositions + [d] == [d];
  }

  /** A body that finished on its own can still be surrendered: it returns, unasked and with its
      outcome recorded, after the drain read finished_first and before body_stop is set. */
  lemma FinishedBodySurrendered() returns (actions: seq<Action>)
    ensures var s := Reach(actions);
            && |s.executions| == 1
            && s.executions[0].body == Body(Exited, Some(Completed), true, true)
            && s.executions[0].dispositions == [Surrendered]
  {
    hide Reach;
    actions := DrainBegins();
    var s := State(true, false, 0, OneExecution(InBody, None, false, false, StillRunning), AskDrain, true);
    Then(actions, State(true, false, 0, OneExecution(InBody, None, false, false, Unread), Capture, true), Go(false), s);
    actions := actions + [Go(false)];
    var returned := s.(executions := OneExecution(Returned, Some(Completed), false, true, StillRunning));
    Then(actions, s, BodyReturns(0, Completed), returned);
    actions := actions + [BodyReturns(0, Completed)];
    var flagged := s.(executions := OneExecution(DoneSet, Some(Completed), false, true, StillRunning));
    Then(actions, returned, BodySetsDone(0), flagged);
    actions := actions + [BodySetsDone(0)];
    var exited := s.(wake := true, executions := OneExecution(Exited, Some(Completed), false, true, StillRunning));
    Then(actions, flagged, BodySetsWake(0), exited);
    actions := actions + [BodySetsWake(0)];
    var joining := exited.(pc := JoinDrain, executions := OneExecution(Exited, Some(Completed), true, true, StillRunning));
    Then(actions, exited, Go(false), joining);
    actions := actions + [Go(false)];
    Then(actions, joining, Go(false), joining.(pc := ExpireRow));
    actions := actions + [Go(false)];
    var surrendered := joining.(pc := LoopTest, executions := [joining.executions[0].(dispositions := [Surrendered])]);
    DisposeOnly(joining.(pc := ExpireRow), joining.executions[0], Surrendered, LoopTest);
    Then(actions, joining.(pc := ExpireRow), Go(false), surrendered);
    actions := actions + [Go(false)];
  }
}
