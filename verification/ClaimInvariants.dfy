// Claims, owners and workers in every reachable state of the whole system.
module ClaimInvariants {
  import opened EventTypes
  import opened Schema
  import opened Operations
  import D = DatabaseInvariants
  import opened Effects
  import opened Protocol

  /** The claims of a step are exactly its epochs 1, 2, ..., lease_epoch: one body each. */
  ghost predicate ClaimsAreEpochs(sys: Sys) {
    && (forall s, e :: (s, e) in sys.bodies ==> s in sys.db.steps && 1 <= e <= sys.db.steps[s].epoch)
    && (forall s, e :: s in sys.db.steps && 1 <= e <= sys.db.steps[s].epoch ==> (s, e) in sys.bodies)
  }

  ghost predicate BodyMatchesStep(sys: Sys, s: StepId, e: nat)
    requires (s, e) in sys.bodies && s in sys.db.steps
  {
    var b := sys.bodies[(s, e)];
    && b.run == sys.db.steps[s].run
    && b.analysis == (sys.db.steps[s].pool == ANALYSIS_POOL)
    && (SharedPc(b.pc) || AnalysisPc(b.pc) == b.analysis)
    && (b.held ==> b.pc.Done? && !b.analysis)
    && b.worker in sys.workers
  }

  ghost predicate BodiesMatch(sys: Sys) {
    forall s, e :: (s, e) in sys.bodies && s in sys.db.steps ==> BodyMatchesStep(sys, s, e)
  }

  /** A row's owner is the worker that made the step's latest claim. */
  ghost predicate OwnerClaimedLast(sys: Sys) {
    forall s :: s in sys.db.steps && sys.db.steps[s].owner.Some? ==>
      (s, sys.db.steps[s].epoch) in sys.bodies
      && sys.bodies[(s, sys.db.steps[s].epoch)].worker == sys.db.steps[s].owner.value
  }

  /** The claim is the worker's own, and it has made no later claim of that step. */
  ghost predicate LatestOwnClaim(sys: Sys, w: WorkerId, s: StepId, e: nat) {
    && (s, e) in sys.bodies && sys.bodies[(s, e)].worker == w
    && forall e' :: e' > e && (s, e') in sys.bodies ==> sys.bodies[(s, e')].worker != w
  }

  ghost predicate OthersReturned(sys: Sys, w: WorkerId, claim: Option<Claim>) {
    forall c :: c in sys.bodies && sys.bodies[c].worker == w && claim != Some(c) ==> sys.bodies[c].pc.Done?
  }

  /** While a worker is on a claim, that claim is its own, it has made no later claim of that
      step, and every other body of its own has returned; while it is idle all of them have. */
  ghost predicate InFlight(sys: Sys, w: WorkerId)
    requires w in sys.workers
  {
    match sys.workers[w].doing
    case Idle => OthersReturned(sys, w, None)
    case Executing(s, e) => LatestOwnClaim(sys, w, s, e) && OthersReturned(sys, w, Some((s, e)))
    case Abandoning(s, e) => LatestOwnClaim(sys, w, s, e) && OthersReturned(sys, w, Some((s, e)))
    case _ => true
  }

  ghost predicate OneStepInFlight(sys: Sys) {
    forall w :: w in sys.workers ==> InFlight(sys, w)
  }

  /** A run has one step: start_run is what creates either. */
  ghost predicate OneStepPerRun(db: Db) {
    forall s, t :: s in db.steps && t in db.steps && db.steps[s].run == db.steps[t].run ==> s == t
  }

  ghost predicate ClaimInv(sys: Sys) {
    && D.Inv(sys.db) && ClaimsAreEpochs(sys) && BodiesMatch(sys) && OwnerClaimedLast(sys)
    && OneStepInFlight(sys) && OneStepPerRun(sys.db)
  }

  // ----- preservation -------------------------------------------------------------------

  lemma ActionIssuesOperation(sys: Sys, a: Action)
    requires Enabled(sys, a)
    ensures Issued(sys.db, OpOf(sys, a))
  {
    if a.StepBody? {
      assert StepKind(CAP_EXCEEDED) && StepKind(CEILING_REACHED) && StepKind(TOOL_COMPLETED);
    }
  }

  lemma DatabaseKept(sys: Sys, a: Action)
    requires D.Inv(sys.db)
    ensures D.Inv(Act(sys, a).db)
  {
    hide D.Inv, Apply, OpOf, Issued;
    if Enabled(sys, a) {
      ActionIssuesOperation(sys, a);
      D.ApplyKeeps(sys.db, OpOf(sys, a));
    }
  }

  /** Steps appear only through start_run, unclaimed and in a new run of their own. */
  lemma StepsAfter(db: Db, op: DbOp, s: StepId)
    requires s in Apply(db, op).0.steps && s !in db.steps
    ensures op.Start? && op.step == s && op.run !in db.runs
    ensures var row := Apply(db, op).0.steps[s];
            row.run == op.run && row.epoch == 0 && row.owner.None? && !row.awaiting && row.cycles == 0
  {
    if op.AppendDecision? {
      var rows := DecisionRows(db, op);
    }
    if op.Start? {
      D.RequestedAdmitted();
    }
  }

  lemma ClaimsKept(sys: Sys, a: Action)
    requires ClaimsAreEpochs(sys) && Enabled(sys, a)
    ensures ClaimsAreEpochs(Act(sys, a))
  {
    hide Apply;
    var op := OpOf(sys, a);
    var sys' := Act(sys, a);
    forall s | s in sys.db.steps
      ensures s in sys'.db.steps
              && sys'.db.steps[s].epoch == sys.db.steps[s].epoch + (if op.ClaimStep? && op.step == s then 1 else 0)
    {
      RowEffect(sys.db, op, s);
    }
    forall s | s in sys'.db.steps && s !in sys.db.steps ensures sys'.db.steps[s].epoch == 0 {
      StepsAfter(sys.db, op, s);
    }
  }

  lemma NextBodyMatches(db: Db, cfg: Config, s: StepId, e: nat, b: Body, choice: Choice)
    requires s in db.steps && !b.pc.Done?
    requires SharedPc(b.pc) || AnalysisPc(b.pc) == b.analysis
    requires !b.held
    ensures var b' := NextBody(db, cfg, s, b, choice, Apply(db, BodyOp(s, e, b, choice)).1);
            && b'.worker == b.worker && b'.run == b.run && b'.analysis == b.analysis
            && (SharedPc(b'.pc) || AnalysisPc(b'.pc) == b'.analysis)
            && (b'.held ==> b.pc.Holding? && b'.pc.Done? && !b.analysis)
  {
    hide BodyOp, Apply, LatestPending, NthSuspension, CommittedDecisions, Approvals, HasFailed;
    hide OnException, ProceedStart, ProceedResume, ProceedWork, ProceedAnalysis;
  }

  lemma BodiesKept(sys: Sys, a: Action)
    requires ClaimsAreEpochs(sys) && BodiesMatch(sys) && Enabled(sys, a)
    ensures BodiesMatch(Act(sys, a))
  {
    hide Apply, NextBody;
    var op := OpOf(sys, a);
    var sys' := Act(sys, a);
    forall s, e | (s, e) in sys'.bodies && s in sys'.db.steps ensures BodyMatchesStep(sys', s, e) {
      if s !in sys.db.steps {
        StepsAfter(sys.db, op, s);
      } else {
        RowEffect(sys.db, op, s);
        if (s, e) in sys.bodies {
          assert BodyMatchesStep(sys, s, e);
          if a.StepBody? && a.step == s && a.epoch == e {
            NextBodyMatches(sys.db, sys.cfg, s, e, sys.bodies[(s, e)], a.choice);
          }
        }
      }
    }
  }

  lemma OwnersKept(sys: Sys, a: Action)
    requires ClaimsAreEpochs(sys) && BodiesMatch(sys) && OwnerClaimedLast(sys) && D.StepShape(sys.db) && Enabled(sys, a)
    ensures OwnerClaimedLast(Act(sys, a))
  {
    hide Apply, NextBody;
    var op := OpOf(sys, a);
    var sys' := Act(sys, a);
    forall s | s in sys'.db.steps && sys'.db.steps[s].owner.Some?
      ensures (s, sys'.db.steps[s].epoch) in sys'.bodies
              && sys'.bodies[(s, sys'.db.steps[s].epoch)].worker == sys'.db.steps[s].owner.value
    {
      if s !in sys.db.steps {
        StepsAfter(sys.db, op, s);
        assert false;
      }
      RowEffect(sys.db, op, s);
      if a.StepBody? {
        assert BodyMatchesStep(sys, a.step, a.epoch);
        NextBodyMatches(sys.db, sys.cfg, a.step, a.epoch, sys.bodies[(a.step, a.epoch)], a.choice);
      }
    }
  }

  lemma BodyWorkersKnown(sys: Sys)
    requires ClaimsAreEpochs(sys) && BodiesMatch(sys)
    ensures forall c :: c in sys.bodies ==> sys.bodies[c].worker in sys.workers
  {
    forall c | c in sys.bodies ensures sys.bodies[c].worker in sys.workers {
      assert (c.0, c.1) in sys.bodies;
      assert BodyMatchesStep(sys, c.0, c.1);
    }
  }

  lemma BodyStepKeepsFlight(sys: Sys, sys': Sys, c: Claim, b: Body, w: WorkerId)
    requires w in sys.workers && InFlight(sys, w) && c in sys.bodies
    requires sys'.workers == sys.workers && sys'.bodies == sys.bodies[c := b] && b.worker == sys.bodies[c].worker
    requires !sys.bodies[c].pc.Done?
    ensures InFlight(sys', w)
  {
  }

  lemma ClaimKeepsFlight(sys: Sys, sys': Sys, v: WorkerId, s: StepId, e: nat, b: Body, w: WorkerId)
    requires v in sys.workers && sys.workers[v].doing.Idle? && InFlight(sys, v)
    requires (s, e) !in sys.bodies && forall e' :: (s, e') in sys.bodies ==> e' < e
    requires sys'.workers == Become(sys, v, Executing(s, e)) && b.worker == v
    requires sys'.bodies == sys.bodies[(s, e) := b]
    requires w in sys.workers && InFlight(sys, w)
    ensures InFlight(sys', w)
  {
  }

  lemma WorkersKept(sys: Sys, a: Action)
    requires ClaimsAreEpochs(sys) && BodiesMatch(sys) && OneStepInFlight(sys) && Enabled(sys, a)
    ensures OneStepInFlight(Act(sys, a))
  {
    hide Apply, NextBody, BodiesMatch, BodyMatchesStep, FreshBody;
    BodyWorkersKnown(sys);
    var sys' := Act(sys, a);
    if a.StepBody? {
      BodyMatched(sys, a.step, a.epoch);
      NextBodyMatches(sys.db, sys.cfg, a.step, a.epoch, sys.bodies[(a.step, a.epoch)], a.choice);
      forall w | w in sys'.workers ensures InFlight(sys', w) {
        BodyStepKeepsFlight(sys, sys', (a.step, a.epoch), sys'.bodies[(a.step, a.epoch)], w);
      }
    } else if a.TakeClaim? {
      var e := sys.db.steps[a.step].epoch + 1;
      FreshBodyWorker(sys, a.worker, a.step);
      forall w | w in sys'.workers ensures InFlight(sys', w) {
        ClaimKeepsFlight(sys, sys', a.worker, a.step, e, sys'.bodies[(a.step, e)], w);
      }
    } else {
      OtherActionsKeepFlight(sys, a);
    }
  }

  lemma FreshBodyWorker(sys: Sys, w: WorkerId, s: StepId)
    requires w in sys.workers && s in sys.db.steps
    ensures FreshBody(sys, w, s).worker == w
  {
  }

  lemma OtherActionsKeepFlight(sys: Sys, a: Action)
    requires OneStepInFlight(sys) && Enabled(sys, a) && !a.StepBody? && !a.TakeClaim?
    requires forall c :: c in sys.bodies ==> sys.bodies[c].worker in sys.workers
    ensures OneStepInFlight(Act(sys, a))
  {
    hide Apply;
    var sys' := Act(sys, a);
    assert sys'.bodies == sys.bodies;
    forall w | w in sys'.workers ensures InFlight(sys', w) {
      assert w in sys.workers ==> InFlight(sys, w);
    }
  }

  lemma BodyMatched(sys: Sys, s: StepId, e: nat)
    requires BodiesMatch(sys) && (s, e) in sys.bodies && s in sys.db.steps
    ensures BodyMatchesStep(sys, s, e)
  {
  }

  lemma OneStepKept(sys: Sys, a: Action)
    requires OneStepPerRun(sys.db) && D.Referential(sys.db) && Enabled(sys, a)
    ensures OneStepPerRun(Act(sys, a).db)
  {
    hide Apply;
    var op := OpOf(sys, a);
    var db' := Act(sys, a).db;
    forall s | s in db'.steps
      ensures s in sys.db.steps ==> db'.steps[s].run == sys.db.steps[s].run
      ensures s !in sys.db.steps ==> op.Start? && op.step == s && db'.steps[s].run == op.run && op.run !in sys.db.runs
    {
      if s in sys.db.steps {
        RowEffect(sys.db, op, s);
      } else {
        StepsAfter(sys.db, op, s);
      }
    }
  }

  lemma ClaimInvKept(sys: Sys, a: Action)
    requires ClaimInv(sys)
    ensures ClaimInv(Act(sys, a))
  {
    hide D.Inv, ClaimsAreEpochs, BodiesMatch, OwnerClaimedLast, OneStepInFlight, OneStepPerRun;
    DatabaseKept(sys, a);
    if Enabled(sys, a) {
      ClaimsKept(sys, a);
      BodiesKept(sys, a);
      InvParts(sys.db);
      OwnersKept(sys, a);
      WorkersKept(sys, a);
      OneStepKept(sys, a);
    }
  }

  lemma InvParts(db: Db)
    requires D.Inv(db)
    ensures D.StepShape(db) && D.Referential(db)
  {
  }

  lemma {:induction false} ReachableClaims(cfg: Config, actions: seq<Action>)
    ensures ClaimInv(Reach(Initial(cfg), actions))
  {
    if actions != [] {
      ReachableClaims(cfg, actions[..|actions| - 1]);
      ClaimInvKept(Reach(Initial(cfg), actions[..|actions| - 1]), actions[|actions| - 1]);
    }
  }
}
