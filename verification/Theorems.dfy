// What the invariants say about every reachable state, in the protocol's own terms.
module Theorems {
  import opened EventTypes
  import opened Schema
  import opened AppendPaths
  import opened Operations
  import D = DatabaseInvariants
  import opened RunStates
  import opened Logs
  import opened Protocol
  import opened ClaimInvariants
  import A = ApprovalInvariants
  import C = CompletionInvariants
  import G = StartInvariants
  import opened Effects

  /** A step waiting for a decision belongs to nobody: no pool can claim it, no epoch passes its
      fence, its latest suspension is unanswered, and it has cycles left. */
  lemma AwaitingStepIsHeld(cfg: Config, actions: seq<Action>, s: StepId)
    requires var sys := Reach(Initial(cfg), actions); s in sys.db.steps && sys.db.steps[s].awaiting
    ensures var sys := Reach(Initial(cfg), actions);
            var log := Suspensions(sys.db.events, s);
            && sys.db.steps[s].owner.None?
            && (forall pool :: !Claimable(sys.db, s, pool))
            && (forall epoch :: !Fence(sys.db, s, epoch))
            && log != [] && log[|log| - 1].seqNo == MaxSeq(log) && Undecided(sys.db.events, s, MaxSeq(log))
            && sys.db.steps[s].cycles < cfg.cap
  {
    hide Reach, A.CyclesCountDecided, A.OneCallPerSuspension, A.DecisionsNameSuspensions, D.EndsOnce, D.KeysUnique,
      D.StateFollowsLog, OneStepInFlight;
    var sys := Reach(Initial(cfg), actions);
    ReachableClaims(cfg, actions);
    A.ReachableApprovals(cfg, actions);
    ConfigFixed(cfg, actions);
    StepSuspensionsAscend(sys.db, s);
    var e := sys.db.steps[s].epoch;
    assert D.RowShape(sys.db.steps[s]);
    assert A.CyclesTracked(sys, s, e);
  }

  /** The approval loop is bounded, and the counter is the number of suspensions answered: all the
      rows that answer one suspension were written by one call, and no other call wrote any. */
  lemma ApprovalLoopIsBounded(cfg: Config, actions: seq<Action>, s: StepId)
    requires s in Reach(Initial(cfg), actions).db.steps
    ensures var db := Reach(Initial(cfg), actions).db;
            && db.steps[s].cycles <= cfg.cap
            && |DecidedSeqs(db.events, s)| == db.steps[s].cycles
            && (forall i, j :: 0 <= i < |db.events| && 0 <= j < |db.events|
                  && db.events[i].writer.ByDecision? && db.events[j].writer.ByDecision?
                  && db.events[i].step == Some(s) && db.events[j].step == Some(s)
                  ==> (db.events[i].writer.suspension == db.events[j].writer.suspension
                       <==> db.events[i].writer.cycle == db.events[j].writer.cycle))
  {
    hide Reach;
    A.ReachableApprovals(cfg, actions);
    ConfigFixed(cfg, actions);
  }

  /** At one instant a step is claimable or fenceable, never both. */
  lemma ClaimableOrFenceable(cfg: Config, actions: seq<Action>, s: StepId, pool: string, epoch: nat)
    ensures var db := Reach(Initial(cfg), actions).db; !(Claimable(db, s, pool) && Fence(db, s, epoch))
  {
    hide Reach, D.Dense, D.EndsOnce, D.KeysUnique, D.StateFollowsLog, D.Attributed;
    ReachableClaims(cfg, actions);
    var db := Reach(Initial(cfg), actions).db;
    assert s in db.steps ==> D.RowShape(db.steps[s]);
  }

  predicate WroteFor(e: Event, s: StepId) {
    e.writer.ByLease? && e.writer.step == s
  }

  /** Over a whole run of the system: a fenced row was written by the claim its epoch names, for a
      run that is the step's own, and a later row of that step never carries an earlier epoch. */
  lemma FencedRowsFollowClaims(cfg: Config, actions: seq<Action>, i: nat)
    requires var db := Reach(Initial(cfg), actions).db; i < |db.events| && db.events[i].writer.ByLease?
    ensures var sys := Reach(Initial(cfg), actions);
            var w := sys.db.events[i].writer;
            && w.step in sys.db.steps && sys.db.steps[w.step].run == sys.db.events[i].run
            && (w.step, w.epoch) in sys.bodies && sys.bodies[(w.step, w.epoch)].run == sys.db.events[i].run
            && (forall j :: i <= j < |sys.db.events| && WroteFor(sys.db.events[j], w.step) ==>
                  w.epoch <= sys.db.events[j].writer.epoch)
  {
    hide Reach, D.Dense, D.EndsOnce, D.KeysUnique, D.StateFollowsLog, D.StepShape, OneStepInFlight;
    ReachableClaims(cfg, actions);
    var sys := Reach(Initial(cfg), actions);
    assert D.AttributedRow(sys.db, sys.db.events[i]);
    var w := sys.db.events[i].writer;
    assert BodyMatchesStep(sys, w.step, w.epoch);
  }

  /** The drain's update names only its owner, and that is as strong as an epoch fence: whenever a
      worker's supervisor is on a claim and still owns the row, the row's epoch is that claim's. */
  lemma DrainFencedByOwner(cfg: Config, actions: seq<Action>, w: WorkerId)
    requires var sys := Reach(Initial(cfg), actions);
             && OnClaim(sys, w) && sys.workers[w].doing.step in sys.db.steps
             && sys.db.steps[sys.workers[w].doing.step].owner == Some(w)
    ensures var sys := Reach(Initial(cfg), actions);
            var doing := sys.workers[w].doing;
            && sys.db.steps[doing.step].epoch == doing.epoch
            && ExpireNow(sys.db, w, doing.step)
               == (WithStep(sys.db, doing.step, sys.db.steps[doing.step].(lease := Some(sys.db.now))), Rows(1))
  {
    hide Reach, D.Inv, BodiesMatch, OneStepPerRun;
    ReachableClaims(cfg, actions);
    var sys := Reach(Initial(cfg), actions);
    assert InFlight(sys, w);
  }

  /** An idle worker's earlier bodies have all returned, so it never runs two at once. */
  lemma IdleWorkerRunsNothing(cfg: Config, actions: seq<Action>, w: WorkerId)
    requires var sys := Reach(Initial(cfg), actions); w in sys.workers && sys.workers[w].doing.Idle?
    ensures AllReturned(Reach(Initial(cfg), actions), w)
  {
    hide Reach, D.Inv, BodiesMatch, OneStepPerRun, ClaimsAreEpochs, OwnerClaimedLast;
    ReachableClaims(cfg, actions);
    var sys := Reach(Initial(cfg), actions);
    assert InFlight(sys, w);
  }

  /** The stored state is the projection of the committed log, whose events are numbered 1 to
      next_seq, and the run ends at most once with no lifecycle event after its end. */
  lemma StoredStateIsProjected(cfg: Config, actions: seq<Action>, r: RunId)
    requires r in Reach(Initial(cfg), actions).db.runs
    ensures var db := Reach(Initial(cfg), actions).db;
            var log := RunLog(db.events, r);
            && db.runs[r].state == FinalState(log)
            && |log| == db.runs[r].nextSeq && (forall i :: 0 <= i < |log| ==> log[i].seqNo == i + 1)
    ensures var db := Reach(Initial(cfg), actions).db;
            forall i, j :: 0 <= i < j < |db.events| && db.events[i].run == r && db.events[j].run == r
              && D.Ending(db.events[i].kind)
              ==> !D.Ending(db.events[j].kind) && !D.LifecycleKind(db.events[j].kind)
  {
    hide Reach;
    ReachableClaims(cfg, actions);
    assert D.DenseLog(RunLog(Reach(Initial(cfg), actions).db.events, r), Reach(Initial(cfg), actions).db.runs[r].nextSeq);
  }

  /** Analysis failure is final: no run.completed is in a log after a step.failed of the run's
      analysis step, whatever workers, crashes, expiries and re-claims came between. */
  lemma AnalysisFailureIsFinal(cfg: Config, actions: seq<Action>, s: StepId, i: nat, j: nat)
    requires var db := Reach(Initial(cfg), actions).db;
             && i < j < |db.events| && s in db.steps && db.steps[s].pool == ANALYSIS_POOL
             && db.events[i].kind.StepFailed? && db.events[i].step == Some(s) && db.events[j].run == db.events[i].run
    ensures !Reach(Initial(cfg), actions).db.events[j].kind.RunCompleted?
  {
    hide Reach, C.CompletedAfterStep, C.CompletingBodies, C.NoFailureBehind;
    C.ReachableCompletions(cfg, actions);
  }

  /** Every run.completed comes after a step.completed of the run, committed under the same lease
      epoch of the same step, on the fresh, resumed and analysis paths alike. */
  lemma CompletionFollowsItsStep(cfg: Config, actions: seq<Action>, j: nat) returns (i: nat)
    requires j < |Reach(Initial(cfg), actions).db.events|
    requires Reach(Initial(cfg), actions).db.events[j].kind.RunCompleted?
    ensures var events := Reach(Initial(cfg), actions).db.events;
            && i < j && events[i].kind.StepCompleted? && events[i].run == events[j].run
            && events[j].writer.ByLease? && events[i].writer == events[j].writer
  {
    hide Reach, C.AnalysisFailureFinal, C.CompletingBodies, C.NoFailureBehind;
    C.ReachableCompletions(cfg, actions);
    var events := Reach(Initial(cfg), actions).db.events;
    var w := events[j].writer;
    i :| 0 <= i < |events[..j]| && C.CompletedBy(events[..j][i], events[j].run, w.step, w.epoch);
  }

  /** While a body's own actions are not taken, its claim stays where it is, and so does what the log holds. */
  lemma {:induction false} BodyWaits(cfg: Config, actions: seq<Action>, i: nat, j: nat, s: StepId, e: nat)
    requires i <= j <= |actions| && (s, e) in Reach(Initial(cfg), actions[..i]).bodies
    requires forall k :: i <= k < j ==> !(actions[k].StepBody? && actions[k].step == s && actions[k].epoch == e)
    ensures var before, after := Reach(Initial(cfg), actions[..i]), Reach(Initial(cfg), actions[..j]);
            (s, e) in after.bodies && after.bodies[(s, e)] == before.bodies[(s, e)] && before.db.events <= after.db.events
    decreases j
  {
    hide Act;
    if i < j {
      BodyWaits(cfg, actions, i, j - 1, s, e);
      ReachableClaims(cfg, actions[..j - 1]);
      assert actions[..j][..j - 1] == actions[..j - 1];
      OthersLeaveBody(Reach(Initial(cfg), actions[..j - 1]), actions[j - 1], s, e);
    }
  }

  lemma OthersLeaveBody(sys: Sys, a: Action, s: StepId, e: nat)
    requires ClaimsAreEpochs(sys) && (s, e) in sys.bodies
    requires !(a.StepBody? && a.step == s && a.epoch == e)
    ensures (s, e) in Act(sys, a).bodies && Act(sys, a).bodies[(s, e)] == sys.bodies[(s, e)]
    ensures sys.db.events <= Act(sys, a).db.events
  {
    hide Apply, NextBody;
    if Enabled(sys, a) {
      var rows := OpRows(sys.db, OpOf(sys, a));
    }
  }

  lemma RefusalEvent(sys: Sys, s: StepId, e: nat)
    requires Enabled(sys, StepBody(s, e, Go)) && sys.bodies[(s, e)].pc.RefuseEvent?
    requires Fence(sys.db, s, e) && sys.bodies[(s, e)].run == sys.db.steps[s].run && sys.db.steps[s].run in sys.db.runs
    ensures Act(sys, StepBody(s, e, Go))
            == Sys(Insert(sys.db, sys.db.steps[s].run, StepFailed, Some(s), None, NoPayload, ByLease(s, e)),
                   sys.bodies[(s, e) := Goto(sys.bodies[(s, e)], RefuseTerminal)], sys.workers, sys.cfg)
  {
  }

  lemma RefusalTerminal(sys: Sys, s: StepId, e: nat)
    requires Enabled(sys, StepBody(s, e, Go)) && sys.bodies[(s, e)].pc.RefuseTerminal?
    requires Fence(sys.db, s, e) && sys.bodies[(s, e)].run == sys.db.steps[s].run && sys.db.steps[s].run in sys.db.runs
    requires !sys.db.runs[sys.db.steps[s].run].state.Requested?
    ensures var run := sys.db.steps[s].run;
            Act(sys, StepBody(s, e, Go))
            == if sys.db.runs[run].state.Running?
               then Sys(Insert(SetRunState(sys.db, run, Failed), run, RunFailed, None, None, NoPayload, ByLease(s, e)),
                        sys.bodies[(s, e) := Goto(sys.bodies[(s, e)], Done(Raised))], sys.workers, sys.cfg)
               else Sys(sys.db, sys.bodies[(s, e) := Goto(sys.bodies[(s, e)], FailEvent)], sys.workers, sys.cfg)
  {
  }

  lemma RefusingFacts(cfg: Config, actions: seq<Action>, s: StepId, e: nat)
    requires var sys := Reach(Initial(cfg), actions);
             (s, e) in sys.bodies && (sys.bodies[(s, e)].pc.RefuseEvent? || sys.bodies[(s, e)].pc.RefuseTerminal?)
    ensures var sys := Reach(Initial(cfg), actions);
            s in sys.db.steps && sys.bodies[(s, e)].run == sys.db.steps[s].run && G.Begun(sys.db, sys.db.steps[s].run)
  {
    hide Reach, D.Inv, OneStepInFlight, OneStepPerRun, OwnerClaimedLast;
    ReachableClaims(cfg, actions);
    G.ReachableStarts(cfg, actions);
    BodyMatched(Reach(Initial(cfg), actions), s, e);
  }

  /** A resume that refuses fails its run: of the body's two transactions, under leases that hold and
      with anything other actors do between them, the first records step.failed and the second leaves
      the run terminal, failed if it had been running, with run.failed as the last event. */
  lemma RefusalFailsTheRun(cfg: Config, actions: seq<Action>, i: nat, j: nat, s: StepId, e: nat)
    requires i < j < |actions| && actions[i] == StepBody(s, e, Go) && actions[j] == StepBody(s, e, Go)
    requires forall k :: i < k < j ==> !(actions[k].StepBody? && actions[k].step == s && actions[k].epoch == e)
    requires var sys := Reach(Initial(cfg), actions[..i]);
             Enabled(sys, actions[i]) && sys.bodies[(s, e)].pc.RefuseEvent? && Fence(sys.db, s, e)
    requires var sys := Reach(Initial(cfg), actions[..j]); Enabled(sys, actions[j]) && Fence(sys.db, s, e)
    ensures var before, after := Reach(Initial(cfg), actions[..j]), Reach(Initial(cfg), actions[..j + 1]);
            var run := before.db.steps[s].run;
            var n := |Reach(Initial(cfg), actions[..i]).db.events|;
            && n < |before.db.events| && before.db.events[n].kind.StepFailed? && before.db.events[n].run == run
            && before.db.events[n].writer == ByLease(s, e)
            && run in before.db.runs && run in after.db.runs && Terminal(after.db.runs[run].state)
            && (if Terminal(before.db.runs[run].state) then after.db == before.db
                else
                  && after.db.runs[run].state == Failed
                  && (s, e) in after.bodies && after.bodies[(s, e)].pc == Done(Raised)
                  && after.db.events == before.db.events
                     + [Event(run, before.db.runs[run].nextSeq + 1, RunFailed, None, None, NoPayload, ByLease(s, e))])
  {
    hide Reach, Act;
    var start, later := Reach(Initial(cfg), actions[..i]), Reach(Initial(cfg), actions[..j]);
    RefusingFacts(cfg, actions[..i], s, e);
    RefusalEvent(start, s, e);
    ReachStep(cfg, actions, i);
    ReachStep(cfg, actions, j);
    BodyWaits(cfg, actions, i + 1, j, s, e);
    RefusingFacts(cfg, actions[..j], s, e);
    BegunRunsOrEnds(cfg, actions[..j], later.db.steps[s].run);
    RefusalTerminal(later, s, e);
  }

  lemma BegunRunsOrEnds(cfg: Config, actions: seq<Action>, r: RunId)
    requires G.Begun(Reach(Initial(cfg), actions).db, r)
    ensures var state := Reach(Initial(cfg), actions).db.runs[r].state; state.Running? || Terminal(state)
  {
    hide Reach, RunLog, States;
    StoredStateIsProjected(cfg, actions, r);
    ProjectionPaths(RunLog(Reach(Initial(cfg), actions).db.events, r));
  }

  // ----- what the protocol does not promise ---------------------------------------------

  /** Without the transaction that moves the run, a step.started of its own breaks the projection:
      the discipline of the two call sites is what keeps stored state and log together. */
  lemma BareStartBreaksProjection(db: Db, run: RunId, step: StepId, epoch: nat)
    requires D.Inv(db) && Fence(db, step, epoch) && db.steps[step].run == run
    ensures var after := AppendStepKind(db, run, step, epoch, StepStarted, NoPayload, None).0;
            D.StateFollowsLog(after) <==> db.runs[run].state != Requested
  {
    hide RunLog, States, ToolKeyTaken, D.Dense, D.EndsOnce, D.KeysUnique, D.Attributed, D.StepShape, D.EndedIsTerminal,
      D.EpochsOrdered;
    var after := AppendStepKind(db, run, step, epoch, StepStarted, NoPayload, None).0;
    var row := after.events[|db.events|];
    assert after.events == db.events + [row] && row.run == run && row.kind == StepStarted;
    forall r | r in db.runs
      ensures FinalState(RunLog(after.events, r))
              == if r == run then After(db.runs[r].state, StepStarted) else db.runs[r].state
    {
      RunLogSnoc(db.events, row, r);
      FinalStateSnoc(RunLog(db.events, r), row);
      assert r != run ==> RunLog(after.events, r) == RunLog(db.events, r);
    }
    assert After(db.runs[run].state, StepStarted) == db.runs[run].state <==> db.runs[run].state != Requested;
  }

  /** run.cancelled is recorded and stops nothing: the stored state stays as it was. */
  lemma CancellationMovesNothing(db: Db, run: RunId)
    requires run in db.runs && !Terminal(db.runs[run].state)
    ensures var (after, reply) := AppendLifecycleKind(db, run, RunCancelled, NoPayload);
            && reply == Committed(db.runs[run].nextSeq + 1)
            && after.runs[run].state == db.runs[run].state
            && (forall step, epoch :: Fence(db, step, epoch) && db.steps[step].run == run && db.runs[run].state.Running?
                  ==> AppendTerminalKind(after, run, step, epoch, true, NoPayload).1
                      == Committed(db.runs[run].nextSeq + 2))
  {
  }

  /** What lets an event follow a run's end: neither a claim nor a step-scope append looks at the run's
      state, so a step.started, or any other step event, commits exactly when the fence passes for a
      step of the run. */
  lemma StepEventsIgnoreTheRun(db: Db, run: RunId, step: StepId, epoch: nat, kind: Kind, pool: string, state: RunState)
    requires D.Referential(db) && run in db.runs && StepKind(kind) && !kind.ToolInvoked?
    ensures Claimable(SetRunState(db, run, state), step, pool) <==> Claimable(db, step, pool)
    ensures CommitStepStarted(db, run, step, epoch, NoPayload).1.Committed?
            <==> Fence(db, step, epoch) && db.steps[step].run == run
    ensures AppendStepKind(SetRunState(db, run, state), run, step, epoch, kind, NoPayload, None).1
            == AppendStepKind(db, run, step, epoch, kind, NoPayload, None).1
  {
  }
}
