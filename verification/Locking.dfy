// The append calls as transactions in flight, holding row locks until they commit or roll back.
// Two things follow: the committed events of a run stay numbered 1, 2, ..., next_seq, and no
// transactions wait for each other in a ring.
module Locking {
  import opened EventTypes

  type RunId = nat
  type StepId = nat
  type TxId = nat

  /** Fenced is append_step_event, append_policy_decision or append_run_terminal; Started is the
      step-start transaction, which first moves a requested run to running; both are lease calls, made
      for one claim of a step. RowUpdate is a renewal, release, hold, drain or termination of one
      steps row. */
  datatype Call =
    | Fenced(run: RunId, step: StepId, epoch: nat)
    | Started(run: RunId, step: StepId, epoch: nat)
    | Lifecycle(run: RunId)
    | Decision(run: RunId, step: StepId, rows: nat)
    | RowUpdate(step: StepId)

  datatype Phase = OpenRun | WantStep | WantRun | Inserting | Updated

  /** local is the uncommitted next_seq and pending the uncommitted rows' numbers. */
  datatype Tx = Tx(call: Call, phase: Phase, holdsStep: bool, holdsRun: bool, local: nat, pending: seq<nat>, left: nat)

  datatype RunRow = RunRow(requested: bool, nextSeq: nat)
  datatype StepRow = StepRow(run: RunId, epoch: nat, leased: bool, awaiting: bool)

  /** Committed rows, each run's committed event numbers in commit order, and what is in flight. */
  datatype State = State(runs: map<RunId, RunRow>, steps: map<StepId, StepRow>, log: map<RunId, seq<nat>>,
                         txs: map<TxId, Tx>)

  const INITIAL: State := State(map[], map[], map[], map[])

  predicate LeaseCall(c: Call) {
    c.Fenced? || c.Started?
  }

  predicate HoldsStep(tx: Tx, step: StepId) {
    tx.holdsStep && !tx.call.Lifecycle? && tx.call.step == step
  }

  predicate HoldsRun(tx: Tx, run: RunId) {
    tx.holdsRun && !tx.call.RowUpdate? && tx.call.run == run
  }

  predicate StepFree(s: State, step: StepId) {
    forall t :: t in s.txs ==> !HoldsStep(s.txs[t], step)
  }

  predicate RunFree(s: State, run: RunId) {
    forall t :: t in s.txs ==> !HoldsRun(s.txs[t], run)
  }

  datatype Action =
    | StartRun(run: RunId, step: StepId)
    | Begin(t: TxId, call: Call)
    | Lock(t: TxId)
    | Insert(t: TxId)
    | Commit(t: TxId, leased: bool, awaiting: bool)
    | Rollback(t: TxId)
    | Claim(step: StepId)
    | Lapse(step: StepId)

  /** A step-start transaction and another lease call of the same claim. */
  predicate StartBeside(c: Call, d: Call) {
    LeaseCall(c) && LeaseCall(d) && c.step == d.step && c.epoch == d.epoch && (c.Started? || d.Started?)
  }

  /** Lease calls name their lease's own run. Under the discipline a step-start transaction is never
      in flight beside another lease call of its claim: a body issues them one after another. */
  predicate MayBegin(s: State, call: Call, disciplined: bool) {
    && (LeaseCall(call) ==> call.step in s.steps && s.steps[call.step].run == call.run)
    && (disciplined ==> forall t :: t in s.txs ==> !StartBeside(call, s.txs[t].call))
    && (call.Decision? ==> call.rows > 0)
  }

  /** The step-start update finds a row to lock only while the run is requested. */
  predicate OpensRun(s: State, tx: Tx) {
    tx.phase.OpenRun? && tx.call.Started? && tx.call.run in s.runs && s.runs[tx.call.run].requested
  }

  /** The row a call locks is one its predicate matches: a lease call of an epoch that is not the
      step's finds none, and is refused without waiting. */
  predicate Seeks(s: State, call: Call) {
    !call.Lifecycle? && call.step in s.steps && (LeaseCall(call) ==> s.steps[call.step].epoch == call.epoch)
  }

  predicate Enabled(s: State, a: Action, disciplined: bool) {
    match a
    case StartRun(run, step) => run !in s.runs && step !in s.steps
    case Begin(t, call) => t !in s.txs && MayBegin(s, call, disciplined)
    case Lock(t) =>
      && t in s.txs
      && var tx := s.txs[t];
      && (match tx.phase
          case OpenRun => OpensRun(s, tx) ==> RunFree(s, tx.call.run)
          case WantStep =>
            !tx.call.Lifecycle? && tx.call.step in s.steps && (Seeks(s, tx.call) ==> StepFree(s, tx.call.step))
          case WantRun => !tx.call.RowUpdate? && tx.call.run in s.runs && (tx.holdsRun || RunFree(s, tx.call.run))
          case _ => false)
    case Insert(t) => t in s.txs && s.txs[t].phase.Inserting? && s.txs[t].left > 0
                      && !s.txs[t].call.RowUpdate? && s.txs[t].call.run in s.runs
    case Commit(t, _, awaiting) =>
      && t in s.txs
      && ((s.txs[t].phase.Inserting? && s.txs[t].left == 0
           && !s.txs[t].call.RowUpdate? && s.txs[t].call.run in s.runs && s.txs[t].call.run in s.log)
          // A hold is set only for a step whose run has begun.
          || (s.txs[t].phase.Updated? && s.txs[t].call.RowUpdate? && s.txs[t].call.step in s.steps
              && (awaiting ==> var row := s.steps[s.txs[t].call.step];
                               row.awaiting || (row.run in s.runs && !s.runs[row.run].requested))))
    case Rollback(t) => t in s.txs
    case Claim(step) => step in s.steps && StepFree(s, step) && !s.steps[step].awaiting
    case Lapse(step) => step in s.steps
  }

  function Opening(call: Call): Tx {
    Tx(call, if call.Started? then OpenRun else if call.Lifecycle? then WantRun else WantStep, false, false, 0, [],
       if call.Decision? then call.rows else 1)
  }

  /** The check made under the steps row's lock: a live lease and the run's own step, or an awaited
      decision on the run's own step. */
  predicate Passes(s: State, call: Call)
    requires !call.Lifecycle? && call.step in s.steps
  {
    call.RowUpdate?
    || (Seeks(s, call) && s.steps[call.step].run == call.run
        && (if call.Decision? then s.steps[call.step].awaiting else s.steps[call.step].leased))
  }

  function Locked(s: State, t: TxId): State
    requires Enabled(s, Lock(t), false)
  {
    var tx := s.txs[t];
    match tx.phase
    case OpenRun => s.(txs := s.txs[t := tx.(phase := WantStep, holdsRun := OpensRun(s, tx))])
    case WantStep =>
      if Passes(s, tx.call)
      then s.(txs := s.txs[t := tx.(phase := if tx.call.RowUpdate? then Updated else WantRun, holdsStep := true)])
      else s.(txs := s.txs - {t})
    case WantRun => s.(txs := s.txs[t := tx.(phase := Inserting, holdsRun := true)])
  }

  /** The transaction's run row and events become the committed ones. */
  function CommitRows(s: State, t: TxId, run: RunId): State
    requires t in s.txs && run in s.runs && run in s.log
  {
    var tx := s.txs[t];
    s.(runs := s.runs[run := RunRow(s.runs[run].requested && !tx.call.Started?, tx.local)],
       log := s.log[run := s.log[run] + tx.pending], txs := s.txs - {t})
  }

  function Committed(s: State, t: TxId, leased: bool, awaiting: bool): State
    requires Enabled(s, Commit(t, leased, awaiting), false)
  {
    match s.txs[t].call
    case RowUpdate(step) =>
      s.(steps := s.steps[step := s.steps[step].(leased := leased, awaiting := awaiting)], txs := s.txs - {t})
    case Decision(run, step, _) =>
      var after := CommitRows(s, t, run);
      if step in s.steps then after.(steps := s.steps[step := s.steps[step].(awaiting := false)]) else after
    case Fenced(run, _, _) => CommitRows(s, t, run)
    case Started(run, _, _) => CommitRows(s, t, run)
    case Lifecycle(run) => CommitRows(s, t, run)
  }

  function Next(s: State, a: Action): State
    requires Enabled(s, a, false)
  {
    match a
    case StartRun(run, step) =>
      s.(runs := s.runs[run := RunRow(true, 1)], steps := s.steps[step := StepRow(run, 0, false, false)],
         log := s.log[run := [1]])
    case Begin(t, call) => s.(txs := s.txs[t := Opening(call)])
    case Lock(t) => Locked(s, t)
    case Insert(t) =>
      // UPDATE ... RETURNING reads this transaction's own version, or else the committed one.
      var tx := s.txs[t];
      var n := (if tx.pending == [] then s.runs[tx.call.run].nextSeq else tx.local) + 1;
      s.(txs := s.txs[t := tx.(local := n, pending := tx.pending + [n], left := tx.left - 1)])
    case Commit(t, leased, awaiting) => Committed(s, t, leased, awaiting)
    case Rollback(t) => s.(txs := s.txs - {t})
    case Claim(step) => s.(steps := s.steps[step := s.steps[step].(leased := true, epoch := s.steps[step].epoch + 1)])
    case Lapse(step) => s.(steps := s.steps[step := s.steps[step].(leased := false)])
  }

  function Reach(actions: seq<Action>, disciplined: bool): State {
    if actions == [] then INITIAL
    else
      var s := Reach(actions[..|actions| - 1], disciplined);
      var a := actions[|actions| - 1];
      if Enabled(s, a, disciplined) then (assert Enabled(s, a, false); Next(s, a)) else s
  }

  // ----- the invariant ------------------------------------------------------------------

  /** What a transaction holds, and what its checks established, at each phase. */
  predicate Shaped(s: State, tx: Tx) {
    && (LeaseCall(tx.call) ==> tx.call.step in s.steps && s.steps[tx.call.step].run == tx.call.run)
    && (tx.holdsRun ==> !tx.call.RowUpdate? && tx.call.run in s.runs)
    && (tx.holdsStep ==>
          && !tx.call.Lifecycle? && tx.call.step in s.steps
          && (!tx.call.RowUpdate? ==> s.steps[tx.call.step].run == tx.call.run))
    && (tx.call.Decision? && tx.holdsStep ==> s.steps[tx.call.step].awaiting)
    && (LeaseCall(tx.call) && tx.holdsStep ==> s.steps[tx.call.step].epoch == tx.call.epoch)
    && (if tx.phase.Inserting? then tx.left == 0 ==> tx.pending != [] else tx.left > 0 && tx.pending == [])
    && match tx.phase
       case OpenRun => tx.call.Started? && !tx.holdsStep && !tx.holdsRun
       case WantStep =>
         && !tx.call.Lifecycle? && !tx.holdsStep
         && (tx.holdsRun ==> tx.call.Started? && s.runs[tx.call.run].requested)
       case WantRun => !tx.call.RowUpdate? && (tx.holdsStep || tx.call.Lifecycle?)
       case Inserting => !tx.call.RowUpdate? && tx.holdsRun && (tx.holdsStep || tx.call.Lifecycle?)
       case Updated => tx.call.RowUpdate? && tx.holdsStep && !tx.holdsRun
  }

  predicate AllShaped(s: State) {
    forall t :: t in s.txs ==> Shaped(s, s.txs[t])
  }

  /** Row locks exclude. */
  ghost predicate Exclusive(s: State) {
    && (forall t, u, step :: t in s.txs && u in s.txs && HoldsStep(s.txs[t], step) && HoldsStep(s.txs[u], step) ==> t == u)
    && (forall t, u, run :: t in s.txs && u in s.txs && HoldsRun(s.txs[t], run) && HoldsRun(s.txs[u], run) ==> t == u)
  }

  /** Every step-start transaction in flight is alone among the lease calls of its claim. */
  ghost predicate StartsAlone(s: State) {
    forall t, u :: t in s.txs && u in s.txs && t != u ==> !StartBeside(s.txs[t].call, s.txs[u].call)
  }

  predicate StepsInRuns(s: State) {
    forall step :: step in s.steps ==>
      s.steps[step].run in s.runs && (s.steps[step].awaiting ==> !s.runs[s.steps[step].run].requested)
  }

  predicate Numbered(log: seq<nat>, from: nat) {
    forall i :: 0 <= i < |log| ==> log[i] == from + i
  }

  /** Committed events are 1, ..., next_seq; what a transaction has pending comes right after. */
  ghost predicate Dense(s: State) {
    && s.log.Keys == s.runs.Keys
    && (forall run :: run in s.runs ==> |s.log[run]| == s.runs[run].nextSeq && Numbered(s.log[run], 1))
    && (forall t :: t in s.txs ==> Continues(s, s.txs[t]))
  }

  predicate Continues(s: State, tx: Tx) {
    tx.pending != [] ==>
      && tx.holdsRun && !tx.call.RowUpdate? && tx.call.run in s.runs
      && Numbered(tx.pending, s.runs[tx.call.run].nextSeq + 1)
      && tx.local == s.runs[tx.call.run].nextSeq + |tx.pending|
  }

  ghost predicate Inv(s: State) {
    AllShaped(s) && Exclusive(s) && StepsInRuns(s) && Dense(s)
  }

  // ----- preservation -------------------------------------------------------------------

  predicate ActsOn(a: Action, t: TxId) {
    match a
    case Begin(u, _) => u == t
    case Lock(u) => u == t
    case Insert(u) => u == t
    case Commit(u, _, _) => u == t
    case Rollback(u) => u == t
    case _ => false
  }

  lemma OwnShape(s: State, a: Action, t: TxId)
    requires AllShaped(s) && StepsInRuns(s) && Enabled(s, a, false) && ActsOn(a, t) && t in Next(s, a).txs
    ensures Shaped(Next(s, a), Next(s, a).txs[t])
  {
    assert t in s.txs ==> Shaped(s, s.txs[t]);
  }

  /** Another transaction's action leaves what this one holds as it was. */
  lemma OtherShape(s: State, a: Action, t: TxId)
    requires AllShaped(s) && Exclusive(s) && Enabled(s, a, false) && !ActsOn(a, t) && t in Next(s, a).txs
    ensures t in s.txs && Next(s, a).txs[t] == s.txs[t] && Shaped(Next(s, a), s.txs[t])
  {
    assert Shaped(s, s.txs[t]);
    if a.Commit? {
      var tx, other := s.txs[t], s.txs[a.t];
      assert Shaped(s, other);
      assert !other.call.Lifecycle? && other.holdsStep ==> HoldsStep(other, other.call.step) && !HoldsStep(tx, other.call.step);
      assert other.holdsRun ==> HoldsRun(other, other.call.run) && !HoldsRun(tx, other.call.run);
    }
  }

  lemma ShapesKept(s: State, a: Action)
    requires Inv(s) && Enabled(s, a, false)
    ensures AllShaped(Next(s, a))
  {
    hide Shaped, Next, Enabled, Dense, Exclusive, StepsInRuns;
    forall t | t in Next(s, a).txs ensures Shaped(Next(s, a), Next(s, a).txs[t]) {
      if ActsOn(a, t) {
        OwnShape(s, a, t);
      } else {
        OtherShape(s, a, t);
      }
    }
  }

  lemma ExclusionKept(s: State, a: Action)
    requires Inv(s) && Enabled(s, a, false)
    ensures Exclusive(Next(s, a))
  {
  }

  lemma StepsKept(s: State, a: Action)
    requires Inv(s) && Enabled(s, a, false)
    ensures StepsInRuns(Next(s, a))
  {
  }

  lemma LogsKept(s: State, a: Action)
    requires Dense(s) && AllShaped(s) && Enabled(s, a, false)
    ensures var s' := Next(s, a);
            && s'.log.Keys == s'.runs.Keys
            && forall run :: run in s'.runs ==> |s'.log[run]| == s'.runs[run].nextSeq && Numbered(s'.log[run], 1)
  {
    if a.Commit? {
      assert Shaped(s, s.txs[a.t]) && Continues(s, s.txs[a.t]);
    }
  }

  lemma OwnContinues(s: State, a: Action, t: TxId)
    requires Dense(s) && AllShaped(s) && Enabled(s, a, false) && ActsOn(a, t) && t in Next(s, a).txs
    ensures Continues(Next(s, a), Next(s, a).txs[t])
  {
    assert t in s.txs ==> Shaped(s, s.txs[t]) && Continues(s, s.txs[t]);
  }

  /** next_seq stands still under a transaction that has taken numbers from it. */
  lemma OtherContinues(s: State, a: Action, t: TxId)
    requires AllShaped(s) && Exclusive(s) && Dense(s) && Enabled(s, a, false) && !ActsOn(a, t) && t in Next(s, a).txs
    ensures Continues(Next(s, a), Next(s, a).txs[t])
  {
    assert Continues(s, s.txs[t]);
    if a.Commit? && s.txs[t].pending != [] && s.txs[a.t].phase.Inserting? {
      assert Shaped(s, s.txs[a.t]);
      assert HoldsRun(s.txs[t], s.txs[t].call.run) && HoldsRun(s.txs[a.t], s.txs[a.t].call.run);
    }
  }

  lemma DensityKept(s: State, a: Action)
    requires Inv(s) && Enabled(s, a, false)
    ensures Dense(Next(s, a))
  {
    hide Next, Enabled, Continues, AllShaped, Exclusive;
    LogsKept(s, a);
    forall t | t in Next(s, a).txs ensures Continues(Next(s, a), Next(s, a).txs[t]) {
      if ActsOn(a, t) {
        OwnContinues(s, a, t);
      } else {
        OtherContinues(s, a, t);
      }
    }
  }

  lemma StartsAloneKept(s: State, a: Action)
    requires StartsAlone(s) && Enabled(s, a, true)
    ensures StartsAlone(Next(s, a))
  {
  }

  lemma {:induction false} ReachableLocks(actions: seq<Action>, disciplined: bool)
    ensures Inv(Reach(actions, disciplined)) && (disciplined ==> StartsAlone(Reach(actions, disciplined)))
  {
    if actions != [] {
      var s, a := Reach(actions[..|actions| - 1], disciplined), actions[|actions| - 1];
      ReachableLocks(actions[..|actions| - 1], disciplined);
      if Enabled(s, a, disciplined) {
        ShapesKept(s, a);
        ExclusionKept(s, a);
        StepsKept(s, a);
        DensityKept(s, a);
        if disciplined {
          StartsAloneKept(s, a);
        }
      }
    }
  }

  // ----- waiting ------------------------------------------------------------------------

  predicate WantsStep(s: State, tx: Tx, step: StepId) {
    tx.phase.WantStep? && Seeks(s, tx.call) && tx.call.step == step
  }

  predicate WantsRun(s: State, tx: Tx, run: RunId) {
    !tx.call.RowUpdate? && tx.call.run == run && (OpensRun(s, tx) || (tx.phase.WantRun? && !tx.holdsRun))
  }

  /** t waits for u: the row lock t takes next is held by u. */
  ghost predicate WaitsFor(s: State, t: TxId, u: TxId) {
    && t in s.txs && u in s.txs && t != u
    && (|| (exists step :: WantsStep(s, s.txs[t], step) && HoldsStep(s.txs[u], step))
        || (exists run :: WantsRun(s, s.txs[t], run) && HoldsRun(s.txs[u], run)))
  }

  ghost predicate Waiting(s: State, t: TxId) {
    exists u :: WaitsFor(s, t, u)
  }

  /** Wanting a step with nothing held, then wanting a run, then the step-start transaction that
      already holds its run, then wanting nothing. */
  function Rank(s: State, t: TxId): nat
    requires t in s.txs
  {
    var tx := s.txs[t];
    if tx.phase.WantStep? then (if tx.holdsRun then 1 else 3)
    else if tx.phase.OpenRun? || (tx.phase.WantRun? && !tx.holdsRun) then 2
    else 0
  }

  /** A step-start transaction that holds its requested run waits only for a steps row whose holder
      wants no run: not another lease call, which would be of the same claim, and not a decision,
      because a step awaiting one is in a run that has begun. */
  lemma StartWaitsForNoRun(s: State, t: TxId, u: TxId, step: StepId)
    requires Inv(s) && StartsAlone(s) && t in s.txs && u in s.txs && t != u
    requires s.txs[t].holdsRun && WantsStep(s, s.txs[t], step) && HoldsStep(s.txs[u], step)
    ensures Rank(s, u) == 0
  {
    hide Dense;
    assert Shaped(s, s.txs[t]) && Shaped(s, s.txs[u]);
  }

  lemma WaitingDescends(s: State, t: TxId, u: TxId)
    requires Inv(s) && StartsAlone(s) && WaitsFor(s, t, u)
    ensures Rank(s, u) < Rank(s, t)
  {
    hide Dense;
    assert Shaped(s, s.txs[t]) && Shaped(s, s.txs[u]);
    if step :| WantsStep(s, s.txs[t], step) && HoldsStep(s.txs[u], step) {
      if s.txs[t].holdsRun {
        StartWaitsForNoRun(s, t, u, step);
      }
    }
  }

  ghost predicate WaitPath(s: State, path: seq<TxId>) {
    |path| >= 2 && forall i :: 0 <= i < |path| - 1 ==> WaitsFor(s, path[i], path[i + 1])
  }

  lemma {:induction false} PathDescends(s: State, path: seq<TxId>)
    requires Inv(s) && StartsAlone(s) && WaitPath(s, path)
    ensures path[0] in s.txs && path[|path| - 1] in s.txs && Rank(s, path[|path| - 1]) < Rank(s, path[0])
  {
    hide Inv, StartsAlone, WaitsFor;
    var n := |path| - 1;
    WaitingDescends(s, path[n - 1], path[n]);
    WaitersKnown(s, path[n - 1], path[n]);
    if n >= 2 {
      assert WaitPath(s, path[..n]);
      PathDescends(s, path[..n]);
    }
  }

  lemma WaitersKnown(s: State, t: TxId, u: TxId)
    requires WaitsFor(s, t, u)
    ensures t in s.txs && u in s.txs
  {
  }

  /** No ring of waiting transactions is reachable in which every step-start is alone among the lease
      calls of its claim, however many calls are in flight over whatever runs and steps. */
  lemma NoWaitCycle(actions: seq<Action>, disciplined: bool, path: seq<TxId>)
    requires WaitPath(Reach(actions, disciplined), path) && StartsAlone(Reach(actions, disciplined))
    ensures path[0] != path[|path| - 1]
  {
    ReachableLocks(actions, disciplined);
    PathDescends(Reach(actions, disciplined), path);
  }

  /** The append calls by themselves need no discipline: while no step-start is in flight there is no
      ring, whatever contends for one step or one run. */
  lemma AppendsNeverCycle(actions: seq<Action>, path: seq<TxId>)
    requires WaitPath(Reach(actions, false), path)
    requires forall t :: t in Reach(actions, false).txs ==> !Reach(actions, false).txs[t].call.Started?
    ensures path[0] != path[|path| - 1]
  {
    NoWaitCycle(actions, false, path);
  }

  /** And bodies that issue their lease calls one after another never reach a ring, step-start included. */
  lemma DisciplineNeverCycles(actions: seq<Action>, path: seq<TxId>)
    requires WaitPath(Reach(actions, true), path)
    ensures path[0] != path[|path| - 1]
  {
    ReachableLocks(actions, true);
    NoWaitCycle(actions, true, path);
  }

  lemma {:induction false} LeadsToMover(s: State, t: TxId) returns (u: TxId)
    requires Inv(s) && StartsAlone(s) && t in s.txs
    ensures u in s.txs && !Waiting(s, u)
    decreases Rank(s, t)
  {
    hide Inv, StartsAlone;
    u := t;
    if v :| WaitsFor(s, t, v) {
      WaitingDescends(s, t, v);
      u := LeadsToMover(s, v);
    }
  }

  /** So whenever transactions are in flight, one of them waits for no other. */
  lemma SomeTransactionMoves(actions: seq<Action>, disciplined: bool) returns (u: TxId)
    requires Reach(actions, disciplined).txs != map[] && StartsAlone(Reach(actions, disciplined))
    ensures u in Reach(actions, disciplined).txs && !Waiting(Reach(actions, disciplined), u)
  {
    ReachableLocks(actions, disciplined);
    var t :| t in Reach(actions, disciplined).txs;
    u := LeadsToMover(Reach(actions, disciplined), t);
  }

  /** In every reachable state, whatever is in flight, refused or rolled back part-way, the committed
      events of a run are exactly 1, ..., next_seq in commit order; and while a transaction has taken
      numbers nobody else can. */
  lemma CommittedEventsDense(actions: seq<Action>, disciplined: bool, run: RunId)
    requires run in Reach(actions, disciplined).runs
    ensures var s := Reach(actions, disciplined);
            && run in s.log && |s.log[run]| == s.runs[run].nextSeq
            && (forall i :: 0 <= i < |s.log[run]| ==> s.log[run][i] == i + 1)
            && (forall t, u :: t in s.txs && u in s.txs && t != u && s.txs[t].pending != [] && s.txs[u].pending != [] ==>
                  s.txs[t].call.RowUpdate? || s.txs[u].call.RowUpdate? || s.txs[t].call.run != s.txs[u].call.run)
  {
    ReachableLocks(actions, disciplined);
    var s := Reach(actions, disciplined);
    forall t, u | t in s.txs && u in s.txs && t != u && s.txs[t].pending != [] && s.txs[u].pending != []
      ensures s.txs[t].call.RowUpdate? || s.txs[u].call.RowUpdate? || s.txs[t].call.run != s.txs[u].call.run
    {
      assert Continues(s, s.txs[t]) && Continues(s, s.txs[u]);
      if !s.txs[t].call.RowUpdate? && !s.txs[u].call.RowUpdate? {
        assert HoldsRun(s.txs[t], s.txs[t].call.run) && HoldsRun(s.txs[u], s.txs[u].call.run);
      }
    }
  }

  // ----- a transaction on its own -------------------------------------------------------

  /** Actions taken one after another, each of them enabled when its turn comes. */
  function Runs(s: State, actions: seq<Action>): Option<State> {
    if actions == [] then Some(s)
    else
      match Runs(s, actions[..|actions| - 1])
      case None => None
      case Some(mid) => if Enabled(mid, actions[|actions| - 1], false) then Some(Next(mid, actions[|actions| - 1])) else None
  }

  lemma RunsThen(s: State, actions: seq<Action>, mid: State, a: Action)
    requires Runs(s, actions) == Some(mid) && Enabled(mid, a, false)
    ensures Runs(s, actions + [a]) == Some(Next(mid, a))
  {
    assert (actions + [a])[..|actions|] == actions;
  }

  /** The next numbers of a run, in order. */
  function Numbers(from: nat, n: nat): seq<nat> {
    if n == 0 then [] else Numbers(from, n - 1) + [from + n]
  }

  lemma {:induction false} NumbersAre(from: nat, n: nat)
    ensures |Numbers(from, n)| == n && Numbered(Numbers(from, n), from + 1)
  {
    if n > 0 {
      NumbersAre(from, n - 1);
    }
  }

  function InFlight(s: State, t: TxId, tx: Tx): State {
    s.(txs := s.txs[t := tx])
  }

  /** The transaction with both its rows locked, n rows inserted. */
  function Inserter(call: Call, n: nat, rows: nat, from: nat): Tx
    requires n <= rows
  {
    Tx(call, Inserting, !call.Lifecycle?, true, if n == 0 then 0 else from + n, Numbers(from, n), rows - n)
  }

  lemma {:induction false} InsertsAll(s: State, t: TxId, call: Call, rows: nat, before: State, head: seq<Action>)
    returns (actions: seq<Action>)
    requires !call.RowUpdate? && call.run in s.runs
    requires Runs(before, head) == Some(InFlight(s, t, Inserter(call, 0, rows, s.runs[call.run].nextSeq)))
    ensures Runs(before, actions) == Some(InFlight(s, t, Inserter(call, rows, rows, s.runs[call.run].nextSeq)))
  {
    hide Runs;
    var from := s.runs[call.run].nextSeq;
    actions := head;
    for n := 0 to rows
      invariant Runs(before, actions) == Some(InFlight(s, t, Inserter(call, n, rows, from)))
    {
      var mid := InFlight(s, t, Inserter(call, n, rows, from));
      NumbersAre(from, n);
      InsertsOne(s, t, call, n, rows);
      RunsThen(before, actions, mid, Insert(t));
      actions := actions + [Insert(t)];
    }
  }

  lemma InsertsOne(s: State, t: TxId, call: Call, n: nat, rows: nat)
    requires !call.RowUpdate? && call.run in s.runs && n < rows
    ensures var from := s.runs[call.run].nextSeq;
            var mid := InFlight(s, t, Inserter(call, n, rows, from));
            Enabled(mid, Insert(t), false) && Next(mid, Insert(t)) == InFlight(s, t, Inserter(call, n + 1, rows, from))
  {
    NumbersAre(s.runs[call.run].nextSeq, n);
    var mid := InFlight(s, t, Inserter(call, n, rows, s.runs[call.run].nextSeq));
    assert Next(mid, Insert(t)).txs == s.txs[t := Inserter(call, n + 1, rows, s.runs[call.run].nextSeq)];
  }

  /** What the check under the steps row's lock comes to. */
  predicate Admitted(s: State, call: Call)
    requires !call.RowUpdate?
  {
    match call
    case Lifecycle(_) => true
    case Decision(run, step, _) => step in s.steps && s.steps[step].run == run && s.steps[step].awaiting
    case Fenced(run, step, epoch) => step in s.steps && s.steps[step] == StepRow(run, epoch, true, s.steps[step].awaiting)
    case Started(run, step, epoch) => step in s.steps && s.steps[step] == StepRow(run, epoch, true, s.steps[step].awaiting)
  }

  /** The rows after the call: its events numbered on from next_seq, a requested run opened by its
      step-start, an answered step no longer awaiting. */
  function Done(s: State, call: Call): State
    requires !call.RowUpdate? && call.run in s.runs && call.run in s.log && (!call.Lifecycle? ==> call.step in s.steps)
  {
    var row := s.runs[call.run];
    var n := if call.Decision? then call.rows else 1;
    s.(runs := s.runs[call.run := RunRow(row.requested && !call.Started?, row.nextSeq + n)],
       log := s.log[call.run := s.log[call.run] + Numbers(row.nextSeq, n)],
       steps := if call.Decision? then s.steps[call.step := s.steps[call.step].(awaiting := false)] else s.steps)
  }

  lemma OpensAlone(s: State, t: TxId, call: Call)
    requires t !in s.txs && call.Started? && RunFree(s, call.run)
    ensures var mid := InFlight(s, t, Opening(call));
            && Enabled(mid, Lock(t), false)
            && Next(mid, Lock(t))
               == InFlight(s, t, Opening(call).(phase := WantStep, holdsRun := call.run in s.runs && s.runs[call.run].requested))
  {
    var mid := InFlight(s, t, Opening(call));
    assert mid.txs[t] == Opening(call);
    assert RunFree(mid, call.run);
    assert Next(mid, Lock(t)).txs == s.txs[t := Next(mid, Lock(t)).txs[t]];
  }

  lemma StepAlone(s: State, t: TxId, tx: Tx)
    requires t !in s.txs && tx.phase.WantStep? && !tx.holdsStep && !tx.call.Lifecycle? && !tx.call.RowUpdate?
    requires tx.call.step in s.steps && StepFree(s, tx.call.step)
    ensures var mid := InFlight(s, t, tx);
            && Enabled(mid, Lock(t), false)
            && Next(mid, Lock(t)) == if Admitted(s, tx.call) then InFlight(s, t, tx.(phase := WantRun, holdsStep := true)) else s
  {
    var mid := InFlight(s, t, tx);
    assert StepFree(mid, tx.call.step);
    assert Passes(mid, tx.call) <==> Admitted(s, tx.call);
    if Admitted(s, tx.call) {
      assert Next(mid, Lock(t)).txs == s.txs[t := tx.(phase := WantRun, holdsStep := true)];
    } else {
      assert Next(mid, Lock(t)).txs == s.txs;
    }
  }

  lemma RunAlone(s: State, t: TxId, tx: Tx)
    requires t !in s.txs && tx.phase.WantRun? && !tx.call.RowUpdate? && tx.call.run in s.runs && RunFree(s, tx.call.run)
    ensures var mid := InFlight(s, t, tx);
            Enabled(mid, Lock(t), false) && Next(mid, Lock(t)) == InFlight(s, t, tx.(phase := Inserting, holdsRun := true))
  {
    var mid := InFlight(s, t, tx);
    assert tx.holdsRun || RunFree(mid, tx.call.run);
    assert Next(mid, Lock(t)).txs == s.txs[t := tx.(phase := Inserting, holdsRun := true)];
  }

  lemma CommitAlone(s: State, t: TxId, call: Call, rows: nat)
    requires t !in s.txs && !call.RowUpdate? && call.run in s.runs && call.run in s.log && (!call.Lifecycle? ==> call.step in s.steps)
    requires rows == (if call.Decision? then call.rows else 1) > 0
    ensures var mid := InFlight(s, t, Inserter(call, rows, rows, s.runs[call.run].nextSeq));
            Enabled(mid, Commit(t, false, false), false) && Next(mid, Commit(t, false, false)) == Done(s, call)
  {
    var mid := InFlight(s, t, Inserter(call, rows, rows, s.runs[call.run].nextSeq));
    assert Next(mid, Commit(t, false, false)).txs == s.txs;
  }

  lemma LocksRows(s: State, t: TxId, call: Call) returns (actions: seq<Action>)
    requires t !in s.txs && MayBegin(s, call, false) && !call.RowUpdate? && call.run in s.runs
    requires (!call.Lifecycle? ==> call.step in s.steps && StepFree(s, call.step)) && RunFree(s, call.run)
    ensures Runs(s, actions)
            == Some(if Admitted(s, call)
                    then InFlight(s, t, Inserter(call, 0, if call.Decision? then call.rows else 1, s.runs[call.run].nextSeq))
                    else s)
  {
    assert Runs(s, []) == Some(s);
    assert Next(s, Begin(t, call)) == InFlight(s, t, Opening(call));
    assert Numbers(s.runs[call.run].nextSeq, 0) == [];
    hide Runs, StepFree, RunFree, Admitted, Next, Enabled, InFlight, Numbers;
    assert Enabled(s, Begin(t, call), false) by { BeginEnabled(s, t, call); }
    RunsThen(s, [], s, Begin(t, call));
    actions := [] + [Begin(t, call)];
    var tx := Opening(call);
    if call.Started? {
      OpensAlone(s, t, call);
      RunsThen(s, actions, InFlight(s, t, tx), Lock(t));
      actions := actions + [Lock(t)];
      tx := tx.(phase := WantStep, holdsRun := s.runs[call.run].requested);
    }
    if !call.Lifecycle? {
      StepAlone(s, t, tx);
      RunsThen(s, actions, InFlight(s, t, tx), Lock(t));
      actions := actions + [Lock(t)];
      tx := tx.(phase := WantRun, holdsStep := true);
    } else {
      assert Admitted(s, call) by { LifecycleAdmitted(s, call); }
    }
    if Admitted(s, call) {
      RunAlone(s, t, tx);
      RunsThen(s, actions, InFlight(s, t, tx), Lock(t));
      actions := actions + [Lock(t)];
    }
  }

  lemma BeginEnabled(s: State, t: TxId, call: Call)
    requires t !in s.txs && MayBegin(s, call, false)
    ensures Enabled(s, Begin(t, call), false)
  {
  }

  lemma LifecycleAdmitted(s: State, call: Call)
    requires call.Lifecycle?
    ensures Admitted(s, call)
  {
  }

  /** In any reachable state, a call whose rows nobody holds runs to its end without waiting: it is
      refused and leaves everything as it was, or it commits exactly its own rows, numbered on from
      next_seq. */
  lemma AloneCommits(actions: seq<Action>, disciplined: bool, t: TxId, call: Call) returns (own: seq<Action>)
    requires var s := Reach(actions, disciplined);
             && t !in s.txs && MayBegin(s, call, false) && !call.RowUpdate? && call.run in s.runs
             && (!call.Lifecycle? ==> call.step in s.steps && StepFree(s, call.step)) && RunFree(s, call.run)
    ensures var s := Reach(actions, disciplined);
            && call.run in s.log
            && Runs(s, own) == Some(if Admitted(s, call) then Done(s, call) else s)
  {
    hide Runs, Admitted, StepFree, RunFree, MayBegin, Reach;
    ReachableLocks(actions, disciplined);
    var s := Reach(actions, disciplined);
    own := LocksRows(s, t, call);
    if Admitted(s, call) {
      var rows := if call.Decision? then call.rows else 1;
      assert rows > 0 by { RowsPositive(s, call); }
      own := InsertsAll(s, t, call, rows, s, own);
      CommitAlone(s, t, call, rows);
      RunsThen(s, own, InFlight(s, t, Inserter(call, rows, rows, s.runs[call.run].nextSeq)), Commit(t, false, false));
      own := own + [Commit(t, false, false)];
    }
  }

  lemma RowsPositive(s: State, call: Call)
    requires MayBegin(s, call, false)
    ensures call.Decision? ==> call.rows > 0
  {
  }

  /** A row update on a step nobody holds runs through and sets what it sets, and nothing else. */
  lemma UpdateRuns(s: State, t: TxId, step: StepId, leased: bool, awaiting: bool)
    requires t !in s.txs && step in s.steps && StepFree(s, step)
    requires awaiting ==> s.steps[step].awaiting || (s.steps[step].run in s.runs && !s.runs[s.steps[step].run].requested)
    ensures Runs(s, [Begin(t, RowUpdate(step)), Lock(t), Commit(t, leased, awaiting)])
            == Some(s.(steps := s.steps[step := s.steps[step].(leased := leased, awaiting := awaiting)]))
  {
    var begin, lock, commit := Begin(t, RowUpdate(step)), Lock(t), Commit(t, leased, awaiting);
    var s1 := InFlight(s, t, Opening(RowUpdate(step)));
    var s2 := InFlight(s, t, Opening(RowUpdate(step)).(phase := Updated, holdsStep := true));
    assert StepFree(s1, step);
    assert Next(s1, lock).txs == s2.txs;
    assert Next(s2, commit).txs == s.txs;
    assert Runs(s, []) == Some(s);
    hide Runs, StepFree;
    RunsThen(s, [], s, begin);
    RunsThen(s, [] + [begin], s1, lock);
    RunsThen(s, [] + [begin] + [lock], s2, commit);
    assert [] + [begin] + [lock] + [commit] == [begin, lock, commit];
  }

  /** A claim fences its predecessors out at once: a lease call of the epoch before it that has not locked
      the steps row yet waits for nothing any more, and its turn refuses it and changes no row. */
  lemma ClaimFencesOut(s: State, step: StepId, t: TxId)
    requires Inv(s) && Enabled(s, Claim(step), false) && t in s.txs && LeaseCall(s.txs[t].call)
    requires s.txs[t].call.step == step && s.txs[t].call.epoch == s.steps[step].epoch && s.txs[t].phase.WantStep?
    ensures var after := Next(s, Claim(step));
            && after.steps[step].epoch == s.steps[step].epoch + 1 && after.steps[step].leased
            && !Waiting(after, t) && Enabled(after, Lock(t), false)
            && Next(after, Lock(t)) == after.(txs := after.txs - {t})
  {
    hide Dense, Exclusive;
    assert Shaped(s, s.txs[t]);
  }

  /** Nothing in flight shows before its commit, and nothing rolled back ever does: beginning, locking,
      inserting and rolling back leave every committed row alone, and a lapse ends one lease. */
  lemma OnlyCommitsShow(s: State, a: Action)
    requires Enabled(s, a, false) && !a.Commit? && !a.StartRun?
    ensures var after := Next(s, a);
            && after.runs == s.runs && after.log == s.log
            && (!a.Claim? && !a.Lapse? ==> after.steps == s.steps)
            && (a.Lapse? ==> after.txs == s.txs && after.steps == s.steps[a.step := s.steps[a.step].(leased := false)])
            && (a.Rollback? ==> after.txs == s.txs - {a.t})
  {
  }

  // ----- the discipline is needed -------------------------------------------------------

  lemma Then(actions: seq<Action>, s: State, a: Action, s': State)
    requires Reach(actions, false) == s && Enabled(s, a, false) && Next(s, a) == s'
    ensures Reach(actions + [a], false) == s'
  {
    assert (actions + [a])[..|actions|] == actions;
  }

  /** Without it, a step-start transaction and another lease call of the same claim wait for each
      other: one holds the run and wants the step, the other the step and the run. */
  lemma TwoLeaseCallsDeadlock() returns (actions: seq<Action>)
    ensures var s := Reach(actions, false); WaitsFor(s, 0, 1) && WaitsFor(s, 1, 0)
  {
    assert Reach([], false) == INITIAL;
    hide Reach;
    var s0 := INITIAL;
    var s1 := Next(s0, StartRun(0, 0));
    var s2 := Next(s1, Claim(0));
    var s3 := Next(s2, Begin(0, Started(0, 0, 1)));
    var s4 := Next(s3, Begin(1, Fenced(0, 0, 1)));
    var s5 := Next(s4, Lock(0));
    var s6 := Next(s5, Lock(1));
    Then([], s0, StartRun(0, 0), s1);
    actions := [] + [StartRun(0, 0)];
    Then(actions, s1, Claim(0), s2);
    actions := actions + [Claim(0)];
    Then(actions, s2, Begin(0, Started(0, 0, 1)), s3);
    actions := actions + [Begin(0, Started(0, 0, 1))];
    Then(actions, s3, Begin(1, Fenced(0, 0, 1)), s4);
    actions := actions + [Begin(1, Fenced(0, 0, 1))];
    Then(actions, s4, Lock(0), s5);
    actions := actions + [Lock(0)];
    Then(actions, s5, Lock(1), s6);
    actions := actions + [Lock(1)];
    assert WantsStep(s6, s6.txs[0], 0) && HoldsStep(s6.txs[1], 0);
    assert WantsRun(s6, s6.txs[1], 0) && HoldsRun(s6.txs[0], 0);
  }
}
