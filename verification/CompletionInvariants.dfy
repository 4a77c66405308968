// How a run may end, in every reachable state.
module CompletionInvariants {
  import opened EventTypes
  import opened Schema
  import opened AppendPaths
  import opened Operations
  import D = DatabaseInvariants
  import opened Effects
  import opened Protocol
  import opened ClaimInvariants
  import A = ApprovalInvariants

  // ----- the invariants -----------------------------------------------------------------

  predicate CompletedBy(e: Event, run: RunId, s: StepId, epoch: nat) {
    e.kind.StepCompleted? && e.run == run && e.writer == ByLease(s, epoch)
  }

  ghost predicate StepCompletedUnder(events: seq<Event>, run: RunId, s: StepId, epoch: nat) {
    exists i :: 0 <= i < |events| && CompletedBy(events[i], run, s, epoch)
  }

  /** A body about to append run.completed has committed step.completed under its own epoch. */
  ghost predicate CompletingBodies(sys: Sys) {
    forall s, e :: (s, e) in sys.bodies && sys.bodies[(s, e)].pc.RunCompleting? ==>
      StepCompletedUnder(sys.db.events, sys.bodies[(s, e)].run, s, e)
  }

  /** Every run.completed follows a step.completed of the same run under the same lease epoch. */
  ghost predicate CompletedAfterStep(events: seq<Event>) {
    forall j :: 0 <= j < |events| && events[j].kind.RunCompleted? ==>
      events[j].writer.ByLease?
      && StepCompletedUnder(events[..j], events[j].run, events[j].writer.step, events[j].writer.epoch)
  }

  /** Program counters from which an analysis body can still complete the run. */
  predicate MayComplete(pc: Pc) {
    pc.AnalysisStarting? || pc.Computing? || pc.Completing? || pc.RunCompleting?
  }

  predicate FailedUpTo(e: Event, s: StepId, epoch: nat) {
    e.kind.StepFailed? && e.step == Some(s) && e.writer.ByLease? && e.writer.epoch <= epoch
  }

  /** An analysis body that may still complete has no step.failed of its step behind it. */
  ghost predicate NoFailureBehind(sys: Sys) {
    forall s, e :: (s, e) in sys.bodies && sys.bodies[(s, e)].analysis && MayComplete(sys.bodies[(s, e)].pc) ==>
      Unfailed(sys.db.events, s, e)
  }

  ghost predicate Unfailed(events: seq<Event>, s: StepId, epoch: nat) {
    forall i :: 0 <= i < |events| ==> !FailedUpTo(events[i], s, epoch)
  }

  /** No run.completed is in a log after the step.failed of the run's analysis step. */
  ghost predicate AnalysisFailureFinal(db: Db) {
    forall i, j :: 0 <= i < j < |db.events| && db.events[i].kind.StepFailed? && db.events[i].step.Some?
      && db.events[i].step.value in db.steps && db.steps[db.events[i].step.value].pool == ANALYSIS_POOL
      && db.events[j].kind.RunCompleted?
      ==> db.events[j].run != db.events[i].run
  }

  ghost predicate CompletionInv(sys: Sys) {
    CompletingBodies(sys) && CompletedAfterStep(sys.db.events) && NoFailureBehind(sys) && AnalysisFailureFinal(sys.db)
  }

  // ----- preservation -------------------------------------------------------------------

  lemma StepCompletedStays(events: seq<Event>, rows: seq<Event>, run: RunId, s: StepId, e: nat)
    requires StepCompletedUnder(events, run, s, e)
    ensures StepCompletedUnder(events + rows, run, s, e)
  {
    var i :| 0 <= i < |events| && CompletedBy(events[i], run, s, e);
    assert (events + rows)[i] == events[i];
  }

  lemma RunCompletingFollows(db: Db, cfg: Config, s: StepId, e: nat, b: Body, choice: Choice, reply: Reply)
    requires s in db.steps && !b.pc.Done?
    ensures NextBody(db, cfg, s, b, choice, reply).pc.RunCompleting? ==>
              b.pc.Completing? && !choice.Lost? && reply.Committed?
    ensures var op := BodyOp(s, e, b, choice);
            b.pc.Completing? && !choice.Lost? ==> op.AppendStep? && op.kind.StepCompleted?
    ensures BodyOp(s, e, b, choice).AppendTerminal? && BodyOp(s, e, b, choice).completed ==> b.pc.RunCompleting?
  {
    hide BodyOp, OnException, ProceedStart, ProceedResume, ProceedWork, ProceedAnalysis;
    CompletingOps(s, e, b, choice);
  }

  lemma CompletingOps(s: StepId, e: nat, b: Body, choice: Choice)
    ensures var op := BodyOp(s, e, b, choice);
            && (b.pc.Completing? && !choice.Lost? ==> op.AppendStep? && op.kind.StepCompleted?)
            && (op.AppendTerminal? && op.completed ==> b.pc.RunCompleting?)
  {
  }

  lemma CompletingKept(sys: Sys, a: Action, rows: seq<Event>)
    requires ClaimsAreEpochs(sys) && BodiesMatch(sys) && CompletingBodies(sys) && Enabled(sys, a)
    requires Act(sys, a).db.events == sys.db.events + rows && OpAdds(sys.db, OpOf(sys, a), rows)
    requires FencedOp(OpOf(sys, a)) && Apply(sys.db, OpOf(sys, a)).1.Committed? ==> rows != []
    ensures CompletingBodies(Act(sys, a))
  {
    hide Apply, NextBody, BodyOp, BodyMatchesStep;
    var sys' := Act(sys, a);
    forall s, e | (s, e) in sys'.bodies && sys'.bodies[(s, e)].pc.RunCompleting?
      ensures StepCompletedUnder(sys'.db.events, sys'.bodies[(s, e)].run, s, e)
    {
      if a.StepBody? && a.step == s && a.epoch == e {
        var b := sys.bodies[(s, e)];
        RunCompletingFollows(sys.db, sys.cfg, s, e, b, a.choice, Apply(sys.db, OpOf(sys, a)).1);
        A.BodyOpIsOwn(s, e, b, a.choice);
        BodyMatched(sys, s, e);
        KeepsIdentity(sys, a);
        assert CompletedBy(rows[0], b.run, s, e);
        assert sys'.db.events[|sys.db.events|] == rows[0];
      } else {
        StepCompletedStays(sys.db.events, rows, sys.bodies[(s, e)].run, s, e);
      }
    }
  }

  lemma KeepsIdentity(sys: Sys, a: Action)
    requires BodiesMatch(sys) && Enabled(sys, a) && a.StepBody?
    ensures Act(sys, a).bodies[(a.step, a.epoch)].run == sys.bodies[(a.step, a.epoch)].run
    ensures Act(sys, a).bodies[(a.step, a.epoch)].analysis == sys.bodies[(a.step, a.epoch)].analysis
  {
    hide Apply, NextBody;
    BodyMatched(sys, a.step, a.epoch);
    NextBodyMatches(sys.db, sys.cfg, a.step, a.epoch, sys.bodies[(a.step, a.epoch)], a.choice);
  }

  /** Only a body at RunCompleting writes run.completed. */
  lemma WhoCompletes(sys: Sys, a: Action, rows: seq<Event>)
    requires Enabled(sys, a) && OpAdds(sys.db, OpOf(sys, a), rows) && D.Attributed(Act(sys, a).db)
    requires Act(sys, a).db.events == sys.db.events + rows
    requires exists k :: 0 <= k < |rows| && rows[k].kind.RunCompleted?
    ensures a.StepBody? && sys.bodies[(a.step, a.epoch)].pc.RunCompleting? && |rows| == 1
    ensures OpOf(sys, a).AppendTerminal? && Fence(sys.db, a.step, a.epoch)
    ensures rows[0].kind.RunCompleted? && rows[0].writer == ByLease(a.step, a.epoch)
            && rows[0].run == sys.bodies[(a.step, a.epoch)].run && rows[0].run == sys.db.steps[a.step].run
  {
    hide Apply, NextBody, BodyOp;
    var k :| 0 <= k < |rows| && rows[k].kind.RunCompleted?;
    assert Act(sys, a).db.events[|sys.db.events| + k] == rows[k];
    assert D.AttributedRow(Act(sys, a).db, rows[k]);
    if a.StepBody? {
      var b := sys.bodies[(a.step, a.epoch)];
      A.BodyOpIsOwn(a.step, a.epoch, b, a.choice);
      RunCompletingFollows(sys.db, sys.cfg, a.step, a.epoch, b, a.choice, Rows(0));
      BodyKinds(a.step, a.epoch, b, a.choice);
    }
  }

  lemma BodyKinds(s: StepId, e: nat, b: Body, choice: Choice)
    ensures var op := BodyOp(s, e, b, choice);
            op.AppendStep? ==> !op.kind.RunCompleted? && (op.kind.StepFailed? ==>
              b.pc.FailEvent? || b.pc.RefuseEvent? || b.pc.AnalysisFailEvent?)
  {
  }

  lemma CompletedAfterStepKept(sys: Sys, a: Action, rows: seq<Event>)
    requires CompletingBodies(sys) && CompletedAfterStep(sys.db.events) && Enabled(sys, a)
    requires OpAdds(sys.db, OpOf(sys, a), rows) && D.Attributed(Act(sys, a).db)
    requires Act(sys, a).db.events == sys.db.events + rows
    ensures CompletedAfterStep(sys.db.events + rows)
  {
    hide Apply, NextBody, BodyOp, OpAdds, D.Attributed;
    var events := sys.db.events + rows;
    forall j | 0 <= j < |events| && events[j].kind.RunCompleted?
      ensures events[j].writer.ByLease?
              && StepCompletedUnder(events[..j], events[j].run, events[j].writer.step, events[j].writer.epoch)
    {
      if j < |sys.db.events| {
        assert events[..j] == sys.db.events[..j];
      } else {
        assert rows[j - |sys.db.events|].kind.RunCompleted?;
        WhoCompletes(sys, a, rows);
        assert events[..j] == sys.db.events;
      }
    }
  }

  /** The protected program counters are entered only by reading that nothing failed. */
  lemma MayCompleteFollows(db: Db, cfg: Config, s: StepId, b: Body, choice: Choice, reply: Reply)
    requires s in db.steps && !b.pc.Done? && (SharedPc(b.pc) || AnalysisPc(b.pc)) && b.analysis
    ensures MayComplete(NextBody(db, cfg, s, b, choice, reply).pc) ==>
              (b.pc.ReadFailed? && !HasFailed(db.events, s)) || MayComplete(b.pc)
  {
    hide LatestPending, NthSuspension, CommittedDecisions, Approvals, HasFailed;
  }

  lemma UnfailedStays(sys: Sys, a: Action, rows: seq<Event>, s: StepId, e: nat)
    requires ClaimsAreEpochs(sys) && Enabled(sys, a) && OpAdds(sys.db, OpOf(sys, a), rows)
    requires (s, e) in sys.bodies && Unfailed(sys.db.events, s, e)
    requires a.StepBody? && a.step == s && a.epoch == e ==>
               (&& !sys.bodies[(s, e)].pc.AnalysisFailEvent?
                && (SharedPc(sys.bodies[(s, e)].pc) || AnalysisPc(sys.bodies[(s, e)].pc)))
    ensures Unfailed(sys.db.events + rows, s, e)
  {
    hide Apply, NextBody, BodyOp;
    forall k | 0 <= k < |rows| ensures !FailedUpTo(rows[k], s, e) {
      if FailedUpTo(rows[k], s, e) {
        var op := OpOf(sys, a);
        assert FencedOp(op) && op.step == s && op.epoch == sys.db.steps[s].epoch;
        A.BodyOpIsOwn(a.step, a.epoch, sys.bodies[(a.step, a.epoch)], a.choice);
        BodyKinds(a.step, a.epoch, sys.bodies[(a.step, a.epoch)], a.choice);
      }
    }
  }

  lemma NoFailureKept(sys: Sys, a: Action, rows: seq<Event>)
    requires ClaimsAreEpochs(sys) && BodiesMatch(sys) && NoFailureBehind(sys) && Enabled(sys, a)
    requires OpAdds(sys.db, OpOf(sys, a), rows) && Act(sys, a).db.events == sys.db.events + rows
    ensures NoFailureBehind(Act(sys, a))
  {
    hide Apply, NextBody, BodyOp, OpAdds, Unfailed;
    var sys' := Act(sys, a);
    forall s, e | (s, e) in sys'.bodies && sys'.bodies[(s, e)].analysis && MayComplete(sys'.bodies[(s, e)].pc)
      ensures Unfailed(sys'.db.events, s, e)
    {
      if a.StepBody? && a.step == s && a.epoch == e {
        BodyMatched(sys, s, e);
        KeepsIdentity(sys, a);
        MayCompleteFollows(sys.db, sys.cfg, s, sys.bodies[(s, e)], a.choice, Apply(sys.db, OpOf(sys, a)).1);
        if !HasFailed(sys.db.events, s) {
          NothingFailed(sys.db.events, s, e);
        }
      }
      UnfailedStays(sys, a, rows, s, e);
    }
  }

  lemma NothingFailed(events: seq<Event>, s: StepId, e: nat)
    requires !HasFailed(events, s)
    ensures Unfailed(events, s, e)
  {
  }

  lemma FailureFinalKept(sys: Sys, a: Action, rows: seq<Event>)
    requires ClaimInv(sys) && NoFailureBehind(sys) && AnalysisFailureFinal(sys.db) && Enabled(sys, a)
    requires A.StepsKnown(sys.db)
    requires OpAdds(sys.db, OpOf(sys, a), rows) && D.Attributed(Act(sys, a).db)
    requires Act(sys, a).db.events == sys.db.events + rows
    ensures AnalysisFailureFinal(Act(sys, a).db)
  {
    hide Apply, NextBody, BodyOp, OpAdds, D.Dense, D.EpochsOrdered, D.StateFollowsLog, D.EndsOnce, D.EndedIsTerminal, D.KeysUnique,
      OwnerClaimedLast, OneStepInFlight;
    var db' := Act(sys, a).db;
    forall i, j | 0 <= i < j < |db'.events| && db'.events[i].kind.StepFailed? && db'.events[i].step.Some?
                  && db'.events[i].step.value in db'.steps && db'.steps[db'.events[i].step.value].pool == ANALYSIS_POOL
                  && db'.events[j].kind.RunCompleted?
      ensures db'.events[j].run != db'.events[i].run
    {
      var s := db'.events[i].step.value;
      if j >= |sys.db.events| {
        assert rows[j - |sys.db.events|].kind.RunCompleted?;
        WhoCompletes(sys, a, rows);
        assert db'.events[i] == sys.db.events[i];
        RowEffect(sys.db, OpOf(sys, a), s);
        FailureBlocksCompletion(sys, i, s, a.step, a.epoch);
      } else {
        RowEffect(sys.db, OpOf(sys, a), s);
      }
    }
  }

  /** With a step.failed of the analysis step in the log, no body of its run stands where the
      fence would let it complete the run. */
  lemma FailureBlocksCompletion(sys: Sys, i: nat, s: StepId, t: StepId, e: nat)
    requires ClaimInv(sys) && NoFailureBehind(sys) && A.StepsKnown(sys.db)
    requires i < |sys.db.events| && sys.db.events[i].kind.StepFailed? && sys.db.events[i].step == Some(s)
    requires (t, e) in sys.bodies && sys.bodies[(t, e)].pc.RunCompleting? && Fence(sys.db, t, e)
    requires s in sys.db.steps && sys.db.steps[s].pool == ANALYSIS_POOL
    ensures sys.db.events[i].run != sys.db.steps[t].run
  {
    hide D.Dense, D.EpochsOrdered, D.StateFollowsLog, D.EndsOnce, D.EndedIsTerminal, D.KeysUnique, OwnerClaimedLast, OneStepInFlight;
    assert D.AttributedRow(sys.db, sys.db.events[i]);
    BodyMatched(sys, t, e);
    assert s == t ==> FailedUpTo(sys.db.events[i], t, e);
  }

  lemma CompletionInvKept(sys: Sys, a: Action)
    requires ClaimInv(sys) && ClaimInv(Act(sys, a)) && A.StepsKnown(sys.db) && CompletionInv(sys)
    ensures CompletionInv(Act(sys, a))
  {
    hide Apply, NextBody, BodyOp, OpAdds, D.Dense, D.EpochsOrdered, D.StateFollowsLog, D.EndsOnce, D.EndedIsTerminal, D.KeysUnique,
      D.Attributed, D.Referential, D.StepShape, ClaimsAreEpochs, BodiesMatch, OwnerClaimedLast, OneStepInFlight, OneStepPerRun,
      CompletingBodies, CompletedAfterStep, NoFailureBehind, AnalysisFailureFinal, A.StepsKnown;
    if Enabled(sys, a) {
      var rows := OpRows(sys.db, OpOf(sys, a));
      CompletingKept(sys, a, rows);
      CompletedAfterStepKept(sys, a, rows);
      NoFailureKept(sys, a, rows);
      FailureFinalKept(sys, a, rows);
    }
  }

  lemma {:induction false} ReachableCompletions(cfg: Config, actions: seq<Action>)
    ensures CompletionInv(Reach(Initial(cfg), actions))
  {
    if actions != [] {
      var before := actions[..|actions| - 1];
      ReachableCompletions(cfg, before);
      ReachableClaims(cfg, before);
      ReachableClaims(cfg, actions);
      A.ReachableApprovals(cfg, before);
      CompletionInvKept(Reach(Initial(cfg), before), actions[|actions| - 1]);
    }
  }
}
