// What a lost claim can no longer do, and what a finished step can no longer become.
module EndedSteps {
  import opened EventTypes
  import opened Schema
  import opened AppendPaths
  import opened Operations
  import D = DatabaseInvariants
  import opened Effects
  import opened Protocol
  import opened ClaimInvariants
  import A = ApprovalInvariants

  // ----- a lost claim -------------------------------------------------------------------

  /** The claim an action is made under, when it is made under one. */
  function ClaimOf(sys: Sys, a: Action): Option<Claim> {
    match a
    case StepBody(s, e, _) => Some((s, e))
    case Heartbeat(w) => if OnClaim(sys, w) then Some(Current(sys, w)) else None
    case Finish(w) => if OnClaim(sys, w) then Some(Current(sys, w)) else None
    case Drain(w) => if OnClaim(sys, w) then Some(Current(sys, w)) else None
    case _ => None
  }

  lemma OtherEpochRefused(db: Db, op: DbOp)
    requires FencedOp(op) || op.HoldStep? || op.Terminate? || op.RenewLease? || op.ReleaseStep?
    requires op.step in db.steps ==> db.steps[op.step].epoch != op.epoch
    ensures Apply(db, op).0 == db
  {
  }

  /** A worker whose step has been claimed again changes nothing: no append, no renewal, no release,
      no hold, no surrender and no termination made under the old claim touches the tables. */
  lemma LostClaimWritesNothing(cfg: Config, actions: seq<Action>, a: Action)
    requires var sys := Reach(Initial(cfg), actions);
             && ClaimOf(sys, a).Some?
             && ClaimOf(sys, a).value.0 in sys.db.steps
             && sys.db.steps[ClaimOf(sys, a).value.0].epoch != ClaimOf(sys, a).value.1
    ensures Act(Reach(Initial(cfg), actions), a).db == Reach(Initial(cfg), actions).db
  {
    hide Reach, Apply, BodyOp, NextBody, D.Inv, BodiesMatch, OneStepPerRun;
    ReachableClaims(cfg, actions);
    var sys := Reach(Initial(cfg), actions);
    if Enabled(sys, a) {
      var op := OpOf(sys, a);
      if a.StepBody? {
        A.BodyOpIsOwn(a.step, a.epoch, sys.bodies[(a.step, a.epoch)], a.choice);
      }
      if a.Drain? {
        assert InFlight(sys, a.worker);
        NotOwned(sys.db, a.worker, op.step);
      } else if op.Nothing? {
        NothingChanges(sys.db);
      } else {
        OtherEpochRefused(sys.db, op);
      }
    }
  }

  lemma NotOwned(db: Db, w: WorkerId, s: StepId)
    requires s in db.steps ==> db.steps[s].owner != Some(w)
    ensures Apply(db, ExpireStep(w, s)).0 == db
  {
  }

  lemma NothingChanges(db: Db)
    ensures Apply(db, Nothing).0 == db
  {
  }

  // ----- a finished step ----------------------------------------------------------------

  predicate Ended(state: StepState) {
    state.Finished? || state.Faulted?
  }

  /** The body of an ended step's last claim has nothing left to do but record a failure. */
  ghost predicate EndedBodies(sys: Sys) {
    forall s :: s in sys.db.steps && Ended(sys.db.steps[s].state) ==>
      && (s, sys.db.steps[s].epoch) in sys.bodies
      && (sys.bodies[(s, sys.db.steps[s].epoch)].pc.FailEvent? || sys.bodies[(s, sys.db.steps[s].epoch)].pc.Done?)
      && !sys.db.steps[s].awaiting
  }

  /** What any transaction can do to a row's state. */
  lemma StateEffect(db: Db, op: DbOp, s: StepId)
    requires s in db.steps
    ensures s in Apply(db, op).0.steps
    ensures var row, row' := db.steps[s], Apply(db, op).0.steps[s];
            && (Ended(row'.state) && !Ended(row.state) ==>
                  || (op.ReleaseStep? && op.step == s && Holds(db, op.worker, s, op.epoch))
                  || (op.Terminate? && op.step == s && row.epoch == op.epoch))
            && (Ended(row.state) && !Ended(row'.state) ==>
                  || (op.ClaimStep? && op.step == s)
                  || (op.HoldStep? && op.step == s && Holds(db, op.worker, s, op.epoch))
                  || (op.ReleaseStep? && op.step == s && !Ended(op.state)))
  {
    if op.AppendDecision? {
      var rows := DecisionRows(db, op);
    } else if FencedOp(op) {
      FencedRows(db, op);
    } else if op.Lifecycle? || op.Start? {
      var rows := LifecycleRows(db, op);
    }
  }

  lemma EndingFails(db: Db, cfg: Config, s: StepId, e: nat, b: Body, choice: Choice, reply: Reply)
    requires s in db.steps && BodyOp(s, e, b, choice).Terminate?
    ensures NextBody(db, cfg, s, b, choice, reply).pc.FailEvent?
  {
    assert b.pc.Terminating?;
  }

  lemma FailingEnds(db: Db, cfg: Config, s: StepId, b: Body, choice: Choice, reply: Reply)
    requires s in db.steps && b.pc.FailEvent?
    ensures NextBody(db, cfg, s, b, choice, reply).pc.Done?
  {
  }

  lemma EndedKept(sys: Sys, a: Action, s: StepId)
    requires ClaimInv(sys) && A.HoldsAreHeld(sys) && EndedBodies(sys) && Enabled(sys, a)
    requires s in sys.db.steps && Ended(sys.db.steps[s].state)
    ensures var sys' := Act(sys, a);
            && s in sys'.db.steps && Ended(sys'.db.steps[s].state)
            && sys'.db.steps[s].epoch == sys.db.steps[s].epoch && !sys'.db.steps[s].awaiting
            && (s, sys.db.steps[s].epoch) in sys'.bodies
            && (sys'.bodies[(s, sys.db.steps[s].epoch)].pc.FailEvent? || sys'.bodies[(s, sys.db.steps[s].epoch)].pc.Done?)
  {
    hide Apply, NextBody, BodyOp, D.Inv, OneStepInFlight, OneStepPerRun, OwnerClaimedLast, BodiesMatch;
    var op, e := OpOf(sys, a), sys.db.steps[s].epoch;
    StateEffect(sys.db, op, s);
    RowEffect(sys.db, op, s);
    if a.StepBody? {
      A.BodyOpIsOwn(a.step, a.epoch, sys.bodies[(a.step, a.epoch)], a.choice);
      if a.step == s && a.epoch == e {
        FailingEnds(sys.db, sys.cfg, s, sys.bodies[(s, e)], a.choice, Apply(sys.db, op).1);
      }
    }
  }

  lemma EndingKept(sys: Sys, a: Action, s: StepId)
    requires ClaimInv(sys) && A.HoldsAreHeld(sys) && Enabled(sys, a)
    requires s in sys.db.steps && !Ended(sys.db.steps[s].state)
    requires s in Act(sys, a).db.steps && Ended(Act(sys, a).db.steps[s].state)
    ensures var sys' := Act(sys, a);
            var e := sys'.db.steps[s].epoch;
            && !sys'.db.steps[s].awaiting && (s, e) in sys'.bodies
            && (sys'.bodies[(s, e)].pc.FailEvent? || sys'.bodies[(s, e)].pc.Done?)
  {
    hide Apply, NextBody, BodyOp, D.Inv, OneStepInFlight, OneStepPerRun, OwnerClaimedLast;
    var op, e := OpOf(sys, a), sys.db.steps[s].epoch;
    StateEffect(sys.db, op, s);
    RowEffect(sys.db, op, s);
    if a.StepBody? {
      A.BodyOpIsOwn(a.step, a.epoch, sys.bodies[(a.step, a.epoch)], a.choice);
      EndingFails(sys.db, sys.cfg, s, e, sys.bodies[(s, e)], a.choice, Apply(sys.db, op).1);
    }
    NotHeldWhileEnding(sys, a, s);
  }

  lemma NotHeldWhileEnding(sys: Sys, a: Action, s: StepId)
    requires ClaimInv(sys) && A.HoldsAreHeld(sys) && Enabled(sys, a) && s in sys.db.steps
    requires (a.Finish? && OpOf(sys, a).step == s && Holds(sys.db, a.worker, s, sys.db.steps[s].epoch))
             || (a.StepBody? && a.step == s && a.epoch == sys.db.steps[s].epoch)
    ensures !sys.db.steps[s].awaiting
  {
    hide Apply, NextBody, BodyOp, OneStepInFlight, OneStepPerRun, OwnerClaimedLast, D.Dense, D.Attributed, D.KeysUnique,
      D.EndsOnce, D.StateFollowsLog, D.EpochsOrdered, D.EndedIsTerminal;
    assert D.RowShape(sys.db.steps[s]);
    if a.StepBody? {
      BodyMatched(sys, s, a.epoch);
    }
  }

  lemma EndedBodiesKept(sys: Sys, a: Action)
    requires ClaimInv(sys) && A.HoldsAreHeld(sys) && EndedBodies(sys)
    ensures EndedBodies(Act(sys, a))
  {
    hide Apply, NextBody, BodyOp, ClaimInv, A.HoldsAreHeld;
    if Enabled(sys, a) {
      var sys' := Act(sys, a);
      forall s | s in sys'.db.steps && Ended(sys'.db.steps[s].state)
        ensures (s, sys'.db.steps[s].epoch) in sys'.bodies
                && (sys'.bodies[(s, sys'.db.steps[s].epoch)].pc.FailEvent? || sys'.bodies[(s, sys'.db.steps[s].epoch)].pc.Done?)
                && !sys'.db.steps[s].awaiting
      {
        if s !in sys.db.steps {
          FreshIsRunnable(sys.db, OpOf(sys, a), s);
          assert false;
        } else if Ended(sys.db.steps[s].state) {
          EndedKept(sys, a, s);
        } else {
          EndingKept(sys, a, s);
        }
      }
    }
  }

  lemma FreshIsRunnable(db: Db, op: DbOp, s: StepId)
    requires s in Apply(db, op).0.steps && s !in db.steps
    ensures Apply(db, op).0.steps[s].state.Runnable?
  {
    StepsAfter(db, op, s);
    D.RequestedAdmitted();
  }

  lemma {:induction false} ReachableEnded(cfg: Config, actions: seq<Action>)
    ensures EndedBodies(Reach(Initial(cfg), actions))
  {
    if actions != [] {
      var before := actions[..|actions| - 1];
      ReachableEnded(cfg, before);
      ReachableClaims(cfg, before);
      A.ReachableApprovals(cfg, before);
      EndedBodiesKept(Reach(Initial(cfg), before), actions[|actions| - 1]);
    }
  }

  lemma ReachableParts(cfg: Config, actions: seq<Action>)
    ensures var sys := Reach(Initial(cfg), actions); ClaimInv(sys) && A.ApprovalInv(sys) && EndedBodies(sys)
  {
    ReachableEnded(cfg, actions);
    ReachableClaims(cfg, actions);
    A.ReachableApprovals(cfg, actions);
  }

  /** A step that is finished or failed stays so through everything that can happen after, and is
      never claimed again: its epoch stands still and no pool can claim it. */
  lemma {:induction false} EndedForGood(cfg: Config, actions: seq<Action>, n: nat, s: StepId)
    requires n <= |actions|
    requires var sys := Reach(Initial(cfg), actions[..n]); s in sys.db.steps && Ended(sys.db.steps[s].state)
    ensures var before, after := Reach(Initial(cfg), actions[..n]).db, Reach(Initial(cfg), actions).db;
            && s in after.steps && Ended(after.steps[s].state) && after.steps[s].epoch == before.steps[s].epoch
            && forall pool :: !Claimable(after, s, pool)
  {
    hide Act, ClaimInv, A.ApprovalInv, EndedBodies;
    if n == |actions| {
      assert actions[..n] == actions;
    } else {
      var k := |actions| - 1;
      assert actions[..k][..n] == actions[..n];
      EndedForGood(cfg, actions[..k], n, s);
      ReachableParts(cfg, actions[..k]);
      EndedStep(Reach(Initial(cfg), actions[..k]), actions[k], s);
    }
  }

  lemma EndedStep(sys: Sys, a: Action, s: StepId)
    requires ClaimInv(sys) && A.ApprovalInv(sys) && EndedBodies(sys)
    requires s in sys.db.steps && Ended(sys.db.steps[s].state)
    ensures var after := Act(sys, a).db;
            s in after.steps && Ended(after.steps[s].state) && after.steps[s].epoch == sys.db.steps[s].epoch
  {
    hide Apply, NextBody, BodyOp, ClaimInv, A.HoldsAreHeld;
    if Enabled(sys, a) {
      EndedKept(sys, a, s);
    }
  }

  /** The step has ended and been let go: no lease, and no worker's supervisor on its last claim. */
  ghost predicate LetGo(sys: Sys, s: StepId) {
    && s in sys.db.steps && Ended(sys.db.steps[s].state) && sys.db.steps[s].lease.None?
    && sys.db.steps[s].run in sys.db.runs
    && forall w :: w in sys.workers ==>
         sys.workers[w].doing != Executing(s, sys.db.steps[s].epoch)
         && sys.workers[w].doing != Abandoning(s, sys.db.steps[s].epoch)
  }

  /** A worker that owns the row is on its latest claim, if it is on a claim of the step at all. */
  lemma OwnerIsOnLatest(sys: Sys, w: WorkerId, s: StepId, e: nat)
    requires ClaimsAreEpochs(sys) && OwnerClaimedLast(sys) && OneStepInFlight(sys) && s in sys.db.steps
    requires w in sys.workers && sys.workers[w].doing == Executing(s, e) && sys.db.steps[s].owner == Some(w)
    ensures e == sys.db.steps[s].epoch
  {
    assert InFlight(sys, w);
  }

  /** No transaction of any actor gives the row a lease again. */
  lemma LeaseStaysOff(sys: Sys, a: Action, s: StepId)
    requires ClaimInv(sys) && A.HoldsAreHeld(sys) && EndedBodies(sys) && LetGo(sys, s) && Enabled(sys, a)
    ensures var after := Act(sys, a).db; s in after.steps && after.steps[s].lease.None?
  {
    hide Apply, NextBody, BodyOp, D.Inv, BodiesMatch, OneStepPerRun;
    var op := OpOf(sys, a);
    RowChanger(sys.db, op, s);
    if Act(sys, a).db.steps[s] != sys.db.steps[s] {
      if a.StepBody? {
        A.BodyOpIsOwn(a.step, a.epoch, sys.bodies[(a.step, a.epoch)], a.choice);
        TerminatedHasNoLease(sys.db, op, s);
      } else if a.Heartbeat? || a.Finish? || a.Drain? {
        OwnerIsOnLatest(sys, a.worker, s, sys.workers[a.worker].doing.epoch);
        assert false;
      }
    }
  }

  lemma TerminatedHasNoLease(db: Db, op: DbOp, s: StepId)
    requires op.Terminate? && op.step == s && s in db.steps
    ensures var row := Apply(db, op).0.steps[s]; row == db.steps[s] || row.lease.None?
  {
  }

  lemma NobodyReturns(sys: Sys, a: Action, s: StepId)
    requires LetGo(sys, s) && Enabled(sys, a)
    ensures forall w :: w in Act(sys, a).workers ==>
              Act(sys, a).workers[w].doing != Executing(s, sys.db.steps[s].epoch)
              && Act(sys, a).workers[w].doing != Abandoning(s, sys.db.steps[s].epoch)
  {
    hide Apply, NextBody, BodyOp;
  }

  lemma LetGoStep(sys: Sys, a: Action, s: StepId)
    requires ClaimInv(sys) && A.ApprovalInv(sys) && EndedBodies(sys) && LetGo(sys, s)
    ensures LetGo(Act(sys, a), s)
    ensures var r := sys.db.steps[s].run;
            Act(sys, a).db.steps[s].run == r && Act(sys, a).db.runs[r].state == sys.db.runs[r].state
  {
    hide Apply, NextBody, BodyOp, D.Inv, BodiesMatch, OwnerClaimedLast, OneStepInFlight, ClaimsAreEpochs, EndedBodies;
    if Enabled(sys, a) {
      EndedStep(sys, a, s);
      RowEffect(sys.db, OpOf(sys, a), s);
      RunStateEffect(sys.db, OpOf(sys, a), sys.db.steps[s].run);
      LeaseStaysOff(sys, a, s);
      NobodyReturns(sys, a, s);
    }
  }

  lemma OthersElsewhere(sys: Sys, w: WorkerId, v: WorkerId)
    requires OneStepInFlight(sys) && OnClaim(sys, w) && v in sys.workers && v != w
    ensures sys.workers[v].doing != Executing(Current(sys, w).0, Current(sys, w).1)
    ensures sys.workers[v].doing != Abandoning(Current(sys, w).0, Current(sys, w).1)
  {
    assert InFlight(sys, w) && InFlight(sys, v);
  }

  /** A release that matches its row lets the step go. */
  lemma FinishLetsGo(cfg: Config, actions: seq<Action>, w: WorkerId)
    requires var sys := Reach(Initial(cfg), actions);
             Enabled(sys, Finish(w)) && Holds(sys.db, w, Current(sys, w).0, Current(sys, w).1)
    ensures var sys := Reach(Initial(cfg), actions); LetGo(Act(sys, Finish(w)), Current(sys, w).0)
  {
    hide Reach, D.Inv, ClaimsAreEpochs, BodiesMatch, OwnerClaimedLast, OneStepInFlight, OneStepPerRun;
    ReachableClaims(cfg, actions);
    var sys := Reach(Initial(cfg), actions);
    InvParts(sys.db);
    forall v | v in sys.workers && v != w
      ensures sys.workers[v].doing != Executing(Current(sys, w).0, Current(sys, w).1)
      ensures sys.workers[v].doing != Abandoning(Current(sys, w).0, Current(sys, w).1)
    {
      OthersElsewhere(sys, w, v);
    }
  }

  /** A run is stranded for good by a step that ended without ending it: once the step has been let go,
      no continuation moves the run's state again. */
  lemma {:induction false} StrandedForGood(cfg: Config, actions: seq<Action>, n: nat, s: StepId)
    requires n <= |actions| && LetGo(Reach(Initial(cfg), actions[..n]), s)
    ensures var before, after := Reach(Initial(cfg), actions[..n]), Reach(Initial(cfg), actions);
            var r := before.db.steps[s].run;
            && LetGo(after, s) && after.db.steps[s].run == r && after.db.runs[r].state == before.db.runs[r].state
  {
    hide Act, ClaimInv, A.ApprovalInv, EndedBodies;
    if n == |actions| {
      assert actions[..n] == actions;
    } else {
      var k := |actions| - 1;
      assert actions[..k][..n] == actions[..n];
      StrandedForGood(cfg, actions[..k], n, s);
      ReachableParts(cfg, actions[..k]);
      LetGoStep(Reach(Initial(cfg), actions[..k]), actions[k], s);
    }
  }

  // ----- giving a step up ---------------------------------------------------------------

  /** Releasing a claim that is still current ends it at once: no epoch passes the fence, no pool can
      claim the step, and no other row, run or event is touched. */
  lemma ReleaseEndsTheClaim(db: Db, w: WorkerId, s: StepId, e: nat, state: StepState)
    requires Ended(state) && Holds(db, w, s, e)
    ensures var after := Release(db, w, s, e, state).0;
            && (forall epoch :: !Fence(after, s, epoch)) && (forall pool :: !Claimable(after, s, pool))
            && after.runs == db.runs && after.events == db.events && after.now == db.now
            && after.steps.Keys == db.steps.Keys && (forall t :: t in db.steps && t != s ==> after.steps[t] == db.steps[t])
  {
  }

  /** A drain surrenders the step: from that instant no epoch passes the fence, and at any later
      instant, unless it is held, its pool can claim it. */
  lemma DrainSurrenders(db: Db, w: WorkerId, s: StepId, later: int)
    requires s in db.steps && db.steps[s].owner == Some(w) && db.steps[s].state.Leased? && !db.steps[s].awaiting
    requires later > db.now
    ensures var after := ExpireNow(db, w, s).0;
            && (forall epoch, now :: now >= db.now ==> !Fence(after.(now := now), s, epoch))
            && Claimable(after.(now := later), s, db.steps[s].pool)
            && !Claimable(after, s, db.steps[s].pool)
  {
  }
}
