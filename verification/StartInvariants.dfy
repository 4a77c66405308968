// A step that has suspended belongs to a run that has left 'requested', in every reachable state.
module StartInvariants {
  import opened EventTypes
  import opened Schema
  import opened AppendPaths
  import opened Operations
  import opened Effects
  import opened Protocol
  import opened ClaimInvariants
  import A = ApprovalInvariants

  predicate Begun(db: Db, run: RunId) {
    run in db.runs && !db.runs[run].state.Requested?
  }

  /** Program counters a body reaches only once its run has begun. */
  predicate PastStart(pc: Pc) {
    pc.CeilingEvent? || pc.Preparing? || pc.ResumeRef? || pc.ResumeCycle? || pc.ResumeSuspension?
    || pc.ResumeDecisions? || pc.Resuming? || pc.RefuseEvent? || pc.RefuseTerminal? || pc.Agent? || pc.Terminating?
    || pc.Suspending? || pc.Holding? || pc.FailEvent? || pc.FinishFailure? || pc.Computing? || pc.AnalysisFailEvent?
    || pc.AnalysisFailTerminal? || pc.Completing? || pc.RunCompleting?
  }

  /** A body that has seen its run begin: by where it is, or at the cap with a cycle behind it. */
  predicate SeesBegun(b: Body) {
    PastStart(b.pc) || ((b.pc.CapEvent? || b.pc.CapTerminal?) && b.cycles > 0)
  }

  ghost predicate StartInv(sys: Sys) {
    && (forall s, e :: (s, e) in sys.bodies && s in sys.db.steps && SeesBegun(sys.bodies[(s, e)]) ==>
          Begun(sys.db, sys.db.steps[s].run))
    && (forall s :: s in sys.db.steps && (sys.db.steps[s].awaiting || sys.db.steps[s].cycles > 0) ==>
          Begun(sys.db, sys.db.steps[s].run))
    && (forall s :: s in sys.db.steps && HasFailed(sys.db.events, s) ==> Begun(sys.db, sys.db.steps[s].run))
  }

  lemma {:induction false} InsertsMoveNoState(db: Db, run: RunId, step: StepId, suspension: nat, cycle: nat,
                                              pairs: seq<Pair>, r: RunId)
    requires Begun(db, r)
    ensures var after := InsertDecisions(db, run, step, suspension, cycle, pairs); after.Some? ==> Begun(after.value, r)
  {
    if pairs != [] {
      InsertsMoveNoState(db, run, step, suspension, cycle, pairs[..|pairs| - 1], r);
    }
  }

  lemma BegunStays(db: Db, op: DbOp, r: RunId)
    requires Begun(db, r)
    ensures Begun(Apply(db, op).0, r)
  {
    if op.AppendDecision? && op.step in db.steps {
      InsertsMoveNoState(ClearHold(db, op.step), op.run, op.step, op.suspension, db.steps[op.step].cycles, op.pairs, r);
    }
  }

  lemma StartedBegins(db: Db, op: DbOp)
    requires op.AppendStarted? && Apply(db, op).1.Committed?
    ensures Begun(Apply(db, op).0, op.run)
  {
  }

  lemma StartPast(db: Db, cfg: Config, s: StepId, b: Body, choice: Choice, reply: Reply)
    requires s in db.steps && StartPc(b.pc) && SeesBegun(ProceedStart(db, cfg, s, b, choice, reply))
    ensures SeesBegun(b) || (b.pc.ReadCycles? && db.steps[s].cycles > 0) || (b.pc.Starting? && reply.Committed?)
  {
    if !b.pc.ReadCycles? && !b.pc.Starting? && !SeesBegun(b) {
      NotYet(db, cfg, s, b, choice, reply);
      hide ProceedStart;
    }
  }

  lemma NotYet(db: Db, cfg: Config, s: StepId, b: Body, choice: Choice, reply: Reply)
    requires s in db.steps && StartPc(b.pc) && !b.pc.ReadCycles? && !b.pc.Starting? && !SeesBegun(b)
    ensures !SeesBegun(ProceedStart(db, cfg, s, b, choice, reply))
  {
    EarlyPcs(db, cfg, s, b, choice, reply);
    hide ProceedStart;
  }

  lemma EarlyPcs(db: Db, cfg: Config, s: StepId, b: Body, choice: Choice, reply: Reply)
    requires s in db.steps
    requires b.pc.CapEvent? || b.pc.CapTerminal? || b.pc.LoadRole? || b.pc.RoleRefusal? || b.pc.CompileRole? || b.pc.CompileRefusal?
    ensures var next := ProceedStart(db, cfg, s, b, choice, reply);
            next.cycles == b.cycles
            && if b.pc.CapEvent? || b.pc.CapTerminal? then next.pc.CapTerminal? || next.pc.Done?
               else next.pc.RoleRefusal? || next.pc.CompileRole? || next.pc.CompileRefusal? || next.pc.Starting? || next.pc.Done?
  {
  }

  lemma ResumePast(db: Db, s: StepId, b: Body, reply: Reply)
    requires s in db.steps && ResumePc(b.pc) && SeesBegun(ProceedResume(db, s, b, reply))
    ensures SeesBegun(b)
  {
    hide LatestPending, NthSuspension, CommittedDecisions, Approvals;
  }

  lemma AnalysisPast(db: Db, s: StepId, b: Body, choice: Choice, reply: Reply)
    requires s in db.steps && AnalysisPc(b.pc) && SeesBegun(ProceedAnalysis(db, s, b, choice, reply))
    ensures SeesBegun(b) || (b.pc.ReadFailed? && HasFailed(db.events, s)) || (b.pc.AnalysisStarting? && reply.Committed?)
  {
    hide HasFailed;
  }

  lemma WorkPast(b: Body, choice: Choice, reply: Reply)
    requires WorkPc(b.pc) && !b.pc.Done?
    ensures SeesBegun(b)
  {
  }

  lemma ThrownPast(b: Body, lookup: bool)
    requires SeesBegun(Goto(b, OnException(b, lookup)))
    ensures SeesBegun(b)
  {
  }

  lemma BegunFollows(db: Db, cfg: Config, s: StepId, b: Body, choice: Choice, reply: Reply)
    requires s in db.steps && !b.pc.Done? && SeesBegun(NextBody(db, cfg, s, b, choice, reply))
    ensures || SeesBegun(b)
            || (b.pc.ReadCycles? && db.steps[s].cycles > 0) || (b.pc.ReadFailed? && HasFailed(db.events, s))
            || ((b.pc.Starting? || b.pc.AnalysisStarting?) && !choice.Lost? && reply.Committed?)
  {
    hide OnException, ProceedStart, ProceedResume, ProceedWork, ProceedAnalysis, HasFailed, SeesBegun;
    if choice.Lost? {
      ThrownPast(b, choice.lookup);
    } else if choice.LostReply? && !b.pc.Holding? {
      ThrownPast(b, false);
    } else if AnalysisPc(b.pc) {
      AnalysisPast(db, s, b, choice, reply);
    } else if ResumePc(b.pc) {
      ResumePast(db, s, b, reply);
    } else if StartPc(b.pc) {
      StartPast(db, cfg, s, b, choice, reply);
    } else {
      WorkPast(b, choice, reply);
    }
  }

  lemma BodiesBegun(sys: Sys, a: Action, s: StepId, e: nat)
    requires ClaimsAreEpochs(sys) && BodiesMatch(sys) && StartInv(sys) && Enabled(sys, a)
    requires var sys' := Act(sys, a); (s, e) in sys'.bodies && s in sys'.db.steps && SeesBegun(sys'.bodies[(s, e)])
    ensures Begun(Act(sys, a).db, Act(sys, a).db.steps[s].run)
  {
    hide Apply, NextBody, BodyOp, BodyMatchesStep, HasFailed;
    var op := OpOf(sys, a);
    assert s in sys.db.steps by {
      if s !in sys.db.steps {
        StepsAfter(sys.db, op, s);
      }
    }
    RowEffect(sys.db, op, s);
    var r := sys.db.steps[s].run;
    if Begun(sys.db, r) {
      BegunStays(sys.db, op, r);
    } else {
      assert a.StepBody? && a.step == s && a.epoch == e;
      BegunFollows(sys.db, sys.cfg, s, sys.bodies[(s, e)], a.choice, Apply(sys.db, op).1);
      StartingOp(s, e, sys.bodies[(s, e)], a.choice);
      A.BodyOpIsOwn(s, e, sys.bodies[(s, e)], a.choice);
      BodyMatched(sys, s, e);
      OwnRun(sys, s, e);
      StartedBegins(sys.db, op);
    }
  }

  lemma StartingOp(s: StepId, e: nat, b: Body, choice: Choice)
    ensures (b.pc.Starting? || b.pc.AnalysisStarting?) && !choice.Lost? ==> BodyOp(s, e, b, choice).AppendStarted?
  {
  }

  lemma OwnRun(sys: Sys, s: StepId, e: nat)
    requires (s, e) in sys.bodies && s in sys.db.steps && BodyMatchesStep(sys, s, e)
    ensures sys.bodies[(s, e)].run == sys.db.steps[s].run
  {
  }

  lemma HoldsBegun(sys: Sys, a: Action, s: StepId)
    requires ClaimsAreEpochs(sys) && BodiesMatch(sys) && StartInv(sys) && Enabled(sys, a)
    requires var sys' := Act(sys, a); s in sys'.db.steps && (sys'.db.steps[s].awaiting || sys'.db.steps[s].cycles > 0)
    ensures Begun(Act(sys, a).db, Act(sys, a).db.steps[s].run)
  {
    hide Apply, NextBody, BodyOp, BodyMatchesStep;
    var op := OpOf(sys, a);
    if s !in sys.db.steps {
      StepsAfter(sys.db, op, s);
      assert false;
    }
    RowEffect(sys.db, op, s);
    if a.StepBody? {
      A.BodyOpIsOwn(a.step, a.epoch, sys.bodies[(a.step, a.epoch)], a.choice);
    }
    assert Begun(sys.db, sys.db.steps[s].run);
    BegunStays(sys.db, op, sys.db.steps[s].run);
  }

  /** Only a body past its start writes step.failed. */
  lemma FailingOp(s: StepId, e: nat, b: Body, choice: Choice)
    ensures var op := BodyOp(s, e, b, choice); FencedOp(op) && FencedKind(op).StepFailed? ==> SeesBegun(b)
  {
  }

  lemma FailuresBegun(sys: Sys, a: Action, s: StepId)
    requires ClaimsAreEpochs(sys) && BodiesMatch(sys) && A.StepsKnown(sys.db) && StartInv(sys) && Enabled(sys, a)
    requires s in Act(sys, a).db.steps && HasFailed(Act(sys, a).db.events, s)
    ensures Begun(Act(sys, a).db, Act(sys, a).db.steps[s].run)
  {
    hide Apply, NextBody, BodyOp, BodyMatchesStep;
    var op := OpOf(sys, a);
    var rows := OpRows(sys.db, op);
    var events := sys.db.events + rows;
    var i :| 0 <= i < |events| && events[i].kind.StepFailed? && events[i].step == Some(s);
    if i < |sys.db.events| {
      assert HasFailed(sys.db.events, s);
    } else {
      assert events[i] == rows[i - |sys.db.events|];
      assert FencedOp(op);
      A.BodyOpIsOwn(a.step, a.epoch, sys.bodies[(a.step, a.epoch)], a.choice);
      FailingOp(a.step, a.epoch, sys.bodies[(a.step, a.epoch)], a.choice);
    }
    RowEffect(sys.db, op, s);
    BegunStays(sys.db, op, sys.db.steps[s].run);
  }

  lemma StartInvKept(sys: Sys, a: Action)
    requires ClaimsAreEpochs(sys) && BodiesMatch(sys) && A.StepsKnown(sys.db) && StartInv(sys)
    ensures StartInv(Act(sys, a))
  {
    hide Apply, NextBody, BodyOp, ClaimsAreEpochs, BodiesMatch, HasFailed, A.StepsKnown;
    if Enabled(sys, a) {
      var sys' := Act(sys, a);
      forall s, e | (s, e) in sys'.bodies && s in sys'.db.steps && SeesBegun(sys'.bodies[(s, e)])
        ensures Begun(sys'.db, sys'.db.steps[s].run)
      {
        BodiesBegun(sys, a, s, e);
      }
      forall s | s in sys'.db.steps && (sys'.db.steps[s].awaiting || sys'.db.steps[s].cycles > 0)
        ensures Begun(sys'.db, sys'.db.steps[s].run)
      {
        HoldsBegun(sys, a, s);
      }
      forall s | s in sys'.db.steps && HasFailed(sys'.db.events, s) ensures Begun(sys'.db, sys'.db.steps[s].run) {
        FailuresBegun(sys, a, s);
      }
    }
  }

  lemma {:induction false} ReachableStarts(cfg: Config, actions: seq<Action>)
    ensures StartInv(Reach(Initial(cfg), actions))
  {
    if actions != [] {
      ReachableStarts(cfg, actions[..|actions| - 1]);
      ReachableClaims(cfg, actions[..|actions| - 1]);
      A.ReachableApprovals(cfg, actions[..|actions| - 1]);
      StartInvKept(Reach(Initial(cfg), actions[..|actions| - 1]), actions[|actions| - 1]);
    }
  }

  /** A step awaiting a decision is in a run that has begun: the step-start transaction of that run
      no longer locks the runs row first. */
  lemma AwaitingHasBegun(cfg: Config, actions: seq<Action>, s: StepId)
    requires var db := Reach(Initial(cfg), actions).db; s in db.steps && db.steps[s].awaiting
    ensures var db := Reach(Initial(cfg), actions).db; Begun(db, db.steps[s].run)
  {
    ReachableStarts(cfg, actions);
  }
}
