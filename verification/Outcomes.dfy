// What a body's outcome says: a refused append is an exception, and a step is released as completed
// only with its reason in the log.
module Outcomes {
  import opened EventTypes
  import opened Schema
  import opened AppendPaths
  import opened Operations
  import D = DatabaseInvariants
  import opened Effects
  import opened Protocol
  import opened IdempotencyKeys
  import opened ClaimInvariants
  import A = ApprovalInvariants
  import T = Theorems
  import F = Failures
  import E = EndedSteps

  // ----- one statement ------------------------------------------------------------------

  /** A repeated invocation, a decision the database refuses, and one that raises before it gets there:
      what the agent's stack answers by terminating the step. */
  predicate FailsClosed(b: Body, choice: Choice, reply: Reply) {
    b.pc.Agent? && (choice.Unrecorded? || (choice.RecordDecision? && !reply.Committed?)
                    || (choice.Invoke? && reply == Refused(UniqueViolation)))
  }

  /** The statement raises, as the hold update alone does not when its reply is lost. */
  predicate Escapes(b: Body, choice: Choice) {
    choice.Lost? || (choice.LostReply? && !b.pc.Holding?)
  }

  lemma Thrown(db: Db, cfg: Config, s: StepId, b: Body, choice: Choice, reply: Reply)
    requires s in db.steps && Escapes(b, choice)
    ensures NextBody(db, cfg, s, b, choice, reply) == Goto(b, OnException(b, F.IsLookup(choice)))
  {
    hide Proceed, OnException;
  }

  lemma RefusedStart(db: Db, cfg: Config, s: StepId, e: nat, b: Body, choice: Choice, error: Error)
    requires s in db.steps && StartPc(b.pc) && FencedOp(BodyOp(s, e, b, choice))
    ensures ProceedStart(db, cfg, s, b, choice, Refused(error)).pc == OnException(b, false)
  {
  }

  lemma RefusedAgent(s: StepId, e: nat, b: Body, choice: Choice, error: Error)
    requires b.pc.Agent? && FencedOp(BodyOp(s, e, b, choice))
    ensures ProceedWork(b, choice, Refused(error)).pc
            == if FailsClosed(b, choice, Refused(error)) then Terminating else OnException(b, false)
  {
    AgentIssues(s, e, b, choice);
    hide BodyOp;
  }

  lemma AgentIssues(s: StepId, e: nat, b: Body, choice: Choice)
    requires b.pc.Agent? && FencedOp(BodyOp(s, e, b, choice))
    ensures choice.Invoke? || choice.Invoked? || choice.RecordDecision?
  {
    hide InvocationKey;
  }

  lemma RefusedWork(s: StepId, e: nat, b: Body, choice: Choice, error: Error)
    requires WorkPc(b.pc) && !b.pc.Agent? && FencedOp(BodyOp(s, e, b, choice))
    ensures ProceedWork(b, choice, Refused(error)).pc
            == if FailsClosed(b, choice, Refused(error)) then Terminating else OnException(b, false)
  {
  }

  lemma RefusedResume(db: Db, s: StepId, e: nat, b: Body, choice: Choice, error: Error)
    requires s in db.steps && ResumePc(b.pc) && FencedOp(BodyOp(s, e, b, choice))
    ensures ProceedResume(db, s, b, Refused(error)).pc == OnException(b, false)
  {
  }

  lemma RefusedAnalysis(db: Db, s: StepId, e: nat, b: Body, choice: Choice, error: Error)
    requires AnalysisPc(b.pc) && FencedOp(BodyOp(s, e, b, choice))
    ensures ProceedAnalysis(db, s, b, choice, Refused(error)).pc == OnException(b, false)
  {
  }

  lemma OpsEscape(s: StepId, e: nat, b: Body, choice: Choice)
    requires FencedOp(BodyOp(s, e, b, choice))
    ensures !choice.Lost? && !b.pc.Holding? && (choice.LostReply? ==> !b.pc.Agent?)
  {
  }

  /** A refused append is an exception like any other, but where the agent's stack fails closed. */
  lemma RefusalIsException(db: Db, cfg: Config, s: StepId, e: nat, b: Body, choice: Choice, error: Error)
    requires s in db.steps && FencedOp(BodyOp(s, e, b, choice))
    ensures NextBody(db, cfg, s, b, choice, Refused(error)).pc
            == if FailsClosed(b, choice, Refused(error)) then Terminating else OnException(b, false)
  {
    hide BodyOp, ProceedStart, ProceedWork, ProceedResume, ProceedAnalysis, OnException;
    OpsEscape(s, e, b, choice);
    if choice.LostReply? {
      Thrown(db, cfg, s, b, choice, Refused(error));
    } else if AnalysisPc(b.pc) {
      RefusedAnalysis(db, s, e, b, choice, error);
    } else if ResumePc(b.pc) {
      RefusedResume(db, s, e, b, choice, error);
    } else if StartPc(b.pc) {
      RefusedStart(db, cfg, s, e, b, choice, error);
    } else if b.pc.Agent? {
      RefusedAgent(s, e, b, choice, error);
    } else {
      RefusedWork(s, e, b, choice, error);
    }
  }

  lemma AgentTerminates(b: Body, choice: Choice, reply: Reply)
    requires b.pc.Agent? && !Escapes(b, choice)
    ensures AgentNext(b, choice, reply).pc.Terminating? <==> FailsClosed(b, choice, reply)
  {
  }

  lemma WorkGoesOn(db: Db, cfg: Config, s: StepId, b: Body, choice: Choice, reply: Reply)
    requires s in db.steps && !Escapes(b, choice)
    ensures b.pc.Agent? ==> NextBody(db, cfg, s, b, choice, reply) == AgentNext(b, choice, reply)
    ensures !b.pc.Agent? && !b.pc.Done? ==> !NextBody(db, cfg, s, b, choice, reply).pc.Terminating?
  {
    hide OnException, ProceedStart, ProceedResume, ProceedAnalysis, AgentNext;
  }

  lemma TerminatesExactly(db: Db, cfg: Config, s: StepId, b: Body, choice: Choice, reply: Reply)
    requires s in db.steps && !b.pc.Done?
    ensures NextBody(db, cfg, s, b, choice, reply).pc.Terminating? <==> FailsClosed(b, choice, reply)
  {
    hide NextBody, AgentNext, OnException;
    if Escapes(b, choice) {
      Thrown(db, cfg, s, b, choice, reply);
    } else {
      WorkGoesOn(db, cfg, s, b, choice, reply);
      if b.pc.Agent? {
        AgentTerminates(b, choice, reply);
      }
    }
  }

  lemma HandlersRefuse(b: Body, lookup: bool)
    ensures OnException(b, lookup).RefuseEvent? <==> lookup && (b.pc.ResumeSuspension? || b.pc.ResumeDecisions?)
  {
  }

  lemma ElsewhereGoesOn(db: Db, cfg: Config, s: StepId, b: Body, choice: Choice, reply: Reply)
    requires s in db.steps && !ResumePc(b.pc) && !Escapes(b, choice)
    ensures !NextBody(db, cfg, s, b, choice, reply).pc.RefuseEvent?
  {
    hide OnException, ProceedStart, ProceedWork, ProceedAnalysis;
  }

  lemma ResumeGoesOn(db: Db, cfg: Config, s: StepId, b: Body, choice: Choice, reply: Reply)
    requires s in db.steps && ResumePc(b.pc) && !Escapes(b, choice)
    ensures NextBody(db, cfg, s, b, choice, reply) == ProceedResume(db, s, b, reply)
  {
    hide OnException, ProceedStart, ProceedWork, ProceedAnalysis, ProceedResume;
  }

  lemma RefusesResume(db: Db, s: StepId, b: Body, reply: Reply)
    requires s in db.steps && ResumePc(b.pc)
    ensures var log := Suspensions(db.events, s);
            var decided := CommittedDecisions(db.events, db.steps[s].run, b.suspension);
            ProceedResume(db, s, b, reply).pc.RefuseEvent? <==>
              || (b.pc.ResumeSuspension? && !(1 <= b.cycle <= |log|))
              || (b.pc.ResumeDecisions? && (decided == map[] || exists i :: 0 <= i < |b.pending| && b.pending[i] !in decided))
  {
    hide LatestPending, CommittedDecisions, Suspensions;
  }

  /** A resume is refused where the lookup raises a LookupError or finds no such suspension, no decision
      for it, or a pending call without one. */
  lemma RefusesExactly(db: Db, cfg: Config, s: StepId, b: Body, choice: Choice, reply: Reply)
    requires s in db.steps && !b.pc.Done?
    ensures var log := Suspensions(db.events, s);
            var decided := CommittedDecisions(db.events, db.steps[s].run, b.suspension);
            NextBody(db, cfg, s, b, choice, reply).pc.RefuseEvent? <==>
              && (b.pc.ResumeSuspension? || b.pc.ResumeDecisions?)
              && (choice == Lost(true)
                  || (!F.Throws(choice)
                      && if b.pc.ResumeSuspension? then !(1 <= b.cycle <= |log|)
                         else decided == map[] || exists i :: 0 <= i < |b.pending| && b.pending[i] !in decided))
  {
    hide NextBody, CommittedDecisions, Suspensions, OnException, ProceedResume;
    if Escapes(b, choice) {
      Thrown(db, cfg, s, b, choice, reply);
      HandlersRefuse(b, F.IsLookup(choice));
    } else if ResumePc(b.pc) {
      ResumeGoesOn(db, cfg, s, b, choice, reply);
      RefusesResume(db, s, b, reply);
    } else {
      ElsewhereGoesOn(db, cfg, s, b, choice, reply);
    }
  }

  // ----- a refused append ends the body -------------------------------------------------

  predicate Doomed(pc: Pc) {
    pc.Terminating? || pc.FailEvent? || pc == Done(Raised)
  }

  /** The claim has written nothing but step.failed from the n-th row on. */
  ghost predicate OnlyFailed(events: seq<Event>, n: nat, s: StepId, e: nat) {
    forall k :: n <= k < |events| && events[k].writer == ByLease(s, e) ==> events[k].kind.StepFailed?
  }

  lemma DoomedActs(sys: Sys, s: StepId, e: nat, choice: Choice)
    requires (s, e) in sys.bodies && Doomed(sys.bodies[(s, e)].pc)
    ensures var after := Act(sys, StepBody(s, e, choice));
            (s, e) in after.bodies && Doomed(after.bodies[(s, e)].pc)
    ensures var op := BodyOp(s, e, sys.bodies[(s, e)], choice);
            FencedOp(op) ==> FencedKind(op).StepFailed?
  {
    hide Apply;
  }

  /** What another action writes is not the claim's. */
  lemma OthersRows(sys: Sys, a: Action, s: StepId, e: nat)
    requires !F.OwnAction(a, s, e)
    ensures sys.db.events <= Act(sys, a).db.events
    ensures forall k :: |sys.db.events| <= k < |Act(sys, a).db.events| ==> Act(sys, a).db.events[k].writer != ByLease(s, e)
  {
    hide Apply, NextBody, BodyOp;
    if Enabled(sys, a) {
      var rows := OpRows(sys.db, OpOf(sys, a));
      if a.StepBody? {
        A.BodyOpIsOwn(a.step, a.epoch, sys.bodies[(a.step, a.epoch)], a.choice);
      }
      assert Act(sys, a).db.events == sys.db.events + rows;
    }
  }

  /** An own action adds at most the row of its own operation, and only by committing it. */
  lemma OwnRows(sys: Sys, s: StepId, e: nat, choice: Choice) returns (rows: seq<Event>)
    requires Enabled(sys, StepBody(s, e, choice))
    ensures Act(sys, StepBody(s, e, choice)).db.events == sys.db.events + rows && |rows| <= 1
    ensures var op := BodyOp(s, e, sys.bodies[(s, e)], choice);
            && (rows != [] ==> FencedOp(op) && rows[0].kind == FencedKind(op) && rows[0].writer == ByLease(s, e))
            && (FencedOp(op) ==> (Apply(sys.db, op).1.Committed? <==> rows != []))
  {
    hide NextBody, BodyOp;
    var op := BodyOp(s, e, sys.bodies[(s, e)], choice);
    A.BodyOpIsOwn(s, e, sys.bodies[(s, e)], choice);
    if FencedOp(op) {
      FencedRows(sys.db, op);
      rows := if Apply(sys.db, op).1.Committed? then [LeaseRow(op, Apply(sys.db, op).1.seqNo)] else [];
    } else {
      NoRows(sys.db, op);
      rows := [];
    }
    hide Apply;
  }

  lemma RefusedActs(sys: Sys, s: StepId, e: nat, choice: Choice)
    requires Enabled(sys, StepBody(s, e, choice))
    requires var op := BodyOp(s, e, sys.bodies[(s, e)], choice); FencedOp(op) && Apply(sys.db, op).1.Refused?
    ensures var after := Act(sys, StepBody(s, e, choice));
            after.db.events == sys.db.events && (s, e) in after.bodies && Doomed(after.bodies[(s, e)].pc)
  {
    hide Apply, NextBody;
    var b := sys.bodies[(s, e)];
    var op := BodyOp(s, e, b, choice);
    FencedRows(sys.db, op);
    RefusalIsException(sys.db, sys.cfg, s, e, b, choice, Apply(sys.db, op).1.error);
    NoHandlerButFail(s, e, b, choice);
  }

  lemma NoHandlerButFail(s: StepId, e: nat, b: Body, choice: Choice)
    requires FencedOp(BodyOp(s, e, b, choice))
    ensures Doomed(OnException(b, false))
  {
  }

  /** Once one of its appends is refused a body can only end by raising, and all it writes after that is
      step.failed, whatever the other actors do. */
  lemma {:induction false} RefusedIsRaised(cfg: Config, actions: seq<Action>, i: nat, s: StepId, e: nat, choice: Choice)
    requires i < |actions| && actions[i] == StepBody(s, e, choice) && Enabled(Reach(Initial(cfg), actions[..i]), actions[i])
    requires var sys := Reach(Initial(cfg), actions[..i]);
             var op := BodyOp(s, e, sys.bodies[(s, e)], choice);
             FencedOp(op) && Apply(sys.db, op).1.Refused?
    ensures var n, after := |Reach(Initial(cfg), actions[..i]).db.events|, Reach(Initial(cfg), actions);
            && n <= |after.db.events| && OnlyFailed(after.db.events, n, s, e)
            && (s, e) in after.bodies && Doomed(after.bodies[(s, e)].pc)
  {
    hide Act, Reach, Apply, BodyOp, Doomed, OnlyFailed, ClaimInv, ClaimsAreEpochs;
    var k := |actions| - 1;
    assert actions[..k + 1] == actions;
    ReachStep(cfg, actions, k);
    var sys := Reach(Initial(cfg), actions[..k]);
    if k == i {
      RefusedActs(sys, s, e, choice);
      NoneSince(sys.db.events, s, e);
    } else {
      assert actions[..k][..i] == actions[..i];
      RefusedIsRaised(cfg, actions[..k], i, s, e, choice);
      ReachableClaims(cfg, actions[..k]);
      ClaimsKnown(sys);
      DoomedStays(sys, actions[k], |Reach(Initial(cfg), actions[..i]).db.events|, s, e);
    }
  }

  lemma NoneSince(events: seq<Event>, s: StepId, e: nat)
    ensures OnlyFailed(events, |events|, s, e)
  {
  }

  lemma ClaimsKnown(sys: Sys)
    requires ClaimInv(sys)
    ensures ClaimsAreEpochs(sys)
  {
  }

  lemma DoomedStays(sys: Sys, a: Action, n: nat, s: StepId, e: nat)
    requires ClaimsAreEpochs(sys) && (s, e) in sys.bodies && Doomed(sys.bodies[(s, e)].pc)
    requires n <= |sys.db.events| && OnlyFailed(sys.db.events, n, s, e)
    ensures var after := Act(sys, a);
            && n <= |after.db.events| && OnlyFailed(after.db.events, n, s, e)
            && (s, e) in after.bodies && Doomed(after.bodies[(s, e)].pc)
  {
    hide Act, Apply, BodyOp, Doomed, FencedKind, ClaimsAreEpochs;
    if !F.OwnAction(a, s, e) {
      T.OthersLeaveBody(sys, a, s, e);
      OthersRows(sys, a, s, e);
    } else if Enabled(sys, a) {
      DoomedActs(sys, s, e, a.choice);
      var rows := OwnRows(sys, s, e, a.choice);
    } else {
      Disabled(sys, a);
    }
  }

  lemma Disabled(sys: Sys, a: Action)
    requires !Enabled(sys, a)
    ensures Act(sys, a) == sys
  {
  }

  // ----- failing closed -----------------------------------------------------------------

  /** A repeated invocation or a decision that is not on record ends the step for good: after the body's
      next transaction the step is failed and nobody ever claims it again, whatever comes between. */
  lemma FailsClosedForGood(cfg: Config, actions: seq<Action>, i: nat, j: nat, s: StepId, e: nat, choice: Choice)
    requires i < j < |actions| && actions[i] == StepBody(s, e, choice) && actions[j] == StepBody(s, e, Go)
    requires forall k :: i < k < j ==> !F.OwnAction(actions[k], s, e)
    requires var sys := Reach(Initial(cfg), actions[..i]);
             && Enabled(sys, actions[i])
             && FailsClosed(sys.bodies[(s, e)], choice, Apply(sys.db, BodyOp(s, e, sys.bodies[(s, e)], choice)).1)
    requires var sys := Reach(Initial(cfg), actions[..j]); Enabled(sys, actions[j]) && sys.db.steps[s].epoch == e
    ensures var after := Reach(Initial(cfg), actions).db;
            && s in after.steps && E.Ended(after.steps[s].state) && after.steps[s].epoch == e
            && forall pool :: !Claimable(after, s, pool)
  {
    hide Act, Reach, Apply, BodyOp, FailsClosed;
    ReachStep(cfg, actions, i);
    ReachStep(cfg, actions, j);
    ClosedActs(Reach(Initial(cfg), actions[..i]), s, e, choice);
    T.BodyWaits(cfg, actions, i + 1, j, s, e);
    TerminationActs(Reach(Initial(cfg), actions[..j]), s, e);
    E.EndedForGood(cfg, actions, j + 1, s);
  }

  lemma ClosedActs(sys: Sys, s: StepId, e: nat, choice: Choice)
    requires Enabled(sys, StepBody(s, e, choice))
    requires FailsClosed(sys.bodies[(s, e)], choice, Apply(sys.db, BodyOp(s, e, sys.bodies[(s, e)], choice)).1)
    ensures var after := Act(sys, StepBody(s, e, choice)); (s, e) in after.bodies && after.bodies[(s, e)].pc.Terminating?
  {
    hide Apply, BodyOp, FailsClosed, NextBody;
    TerminatesExactly(sys.db, sys.cfg, s, sys.bodies[(s, e)], choice, Apply(sys.db, BodyOp(s, e, sys.bodies[(s, e)], choice)).1);
  }

  lemma TerminationActs(sys: Sys, s: StepId, e: nat)
    requires Enabled(sys, StepBody(s, e, Go)) && sys.bodies[(s, e)].pc.Terminating? && sys.db.steps[s].epoch == e
    ensures var after := Act(sys, StepBody(s, e, Go)).db;
            s in after.steps && after.steps[s].state.Faulted? && after.steps[s].epoch == e
  {
    hide NextBody;
  }

  // ----- what the outcome says ----------------------------------------------------------

  /** The claim has written a row of this kind. */
  ghost predicate Wrote(events: seq<Event>, s: StepId, e: nat, kind: Kind) {
    exists i :: 0 <= i < |events| && events[i].kind == kind && events[i].writer == ByLease(s, e)
  }

  ghost predicate Silent(events: seq<Event>, s: StepId, e: nat) {
    forall i :: 0 <= i < |events| ==> events[i].writer != ByLease(s, e)
  }

  /** What succeeded: the run is completed, or the step suspended, or its role was refused on the record,
      or it had no principal and did nothing. */
  ghost predicate Earned(events: seq<Event>, s: StepId, e: nat, analysis: bool) {
    || Wrote(events, s, e, RunCompleted)
    || (!analysis && (Wrote(events, s, e, StepSuspended) || Wrote(events, s, e, Other("role.load.failed"))
                      || Wrote(events, s, e, Other("role.compile.refused")) || Silent(events, s, e)))
  }

  /** The handlers past a step.failed. */
  predicate Failing(pc: Pc) {
    pc.RefuseTerminal? || pc.FailEvent? || pc.AnalysisFailTerminal? || pc == Done(Raised)
  }

  /** How the program counter and what the claim has written go together. */
  ghost predicate Matches(events: seq<Event>, s: StepId, e: nat, b: Body) {
    && (b.pc == Done(Succeeded) ==> Earned(events, s, e, b.analysis))
    && (b.pc.Holding? ==> Wrote(events, s, e, StepSuspended))
    && (b.pc.ReadCycles? || b.pc.ReadFailed? ==> Silent(events, s, e))
    && (Wrote(events, s, e, StepFailed) ==> Failing(b.pc))
    && (Wrote(events, s, e, RunCompleted) ==> b.pc.Done?)
    && (Wrote(events, s, e, StepSuspended) ==> b.pc.Holding? || b.pc.Done?)
    && (Wrote(events, s, e, StepCompleted) ==> b.pc.RunCompleting? || b.pc.Done?)
  }

  lemma WroteMore(events: seq<Event>, rows: seq<Event>, s: StepId, e: nat)
    requires |rows| <= 1 && (rows != [] ==> rows[0].writer == ByLease(s, e))
    ensures forall kind :: Wrote(events + rows, s, e, kind) <==> Wrote(events, s, e, kind) || (rows != [] && rows[0].kind == kind)
    ensures Silent(events + rows, s, e) <==> Silent(events, s, e) && rows == []
  {
    forall kind ensures Wrote(events + rows, s, e, kind) <==> Wrote(events, s, e, kind) || (rows != [] && rows[0].kind == kind) {
      if i :| 0 <= i < |events| && events[i].kind == kind && events[i].writer == ByLease(s, e) {
        assert (events + rows)[i] == events[i];
      }
      if rows != [] {
        assert (events + rows)[|events|] == rows[0];
      }
    }
    if rows != [] {
      assert (events + rows)[|events|] == rows[0];
    }
    assert forall i :: 0 <= i < |events| ==> (events + rows)[i] == events[i];
  }

  lemma OthersMatch(events: seq<Event>, longer: seq<Event>, s: StepId, e: nat, b: Body)
    requires events <= longer && forall k :: |events| <= k < |longer| ==> longer[k].writer != ByLease(s, e)
    requires Matches(events, s, e, b)
    ensures Matches(longer, s, e, b)
  {
    forall kind ensures Wrote(longer, s, e, kind) <==> Wrote(events, s, e, kind) {
      if i :| 0 <= i < |events| && events[i].kind == kind && events[i].writer == ByLease(s, e) {
        assert longer[i] == events[i];
      }
    }
    assert Silent(longer, s, e) <==> Silent(events, s, e) by {
      assert forall i :: 0 <= i < |events| ==> longer[i] == events[i];
    }
    hide Wrote, Silent;
  }

  /** Where one statement leaves the body, by what it issues. */
  predicate Lands(b: Body, op: DbOp, reply: Reply, pc: Pc) {
    && (pc == Done(Succeeded) ==>
          || (b.pc.ReadCycles? && !FencedOp(op)) || (b.pc.Holding? && !b.analysis)
          || (FencedOp(op) && reply.Committed?
              && (FencedKind(op).RunCompleted?
                  || (!b.analysis && (FencedKind(op) == ROLE_LOAD_FAILED || FencedKind(op) == ROLE_COMPILE_REFUSED)))))
    && (pc.Holding? ==> FencedOp(op) && FencedKind(op).StepSuspended? && reply.Committed?)
    && !pc.ReadCycles? && !pc.ReadFailed?
    && (Failing(b.pc) ==> Failing(pc))
    && (FencedOp(op) ==>
          match FencedKind(op)
          case StepFailed => Failing(pc)
          case RunCompleted => pc.Done?
          case StepSuspended => pc.Holding? || pc.Done?
          case StepCompleted => pc.RunCompleting? || pc.Done?
          case _ => true)
    && (b.pc.Holding? || b.pc.RunCompleting? ==> pc.Done?)
  }

  lemma ThrownLands(s: StepId, e: nat, b: Body, choice: Choice, reply: Reply)
    requires Escapes(b, choice) && !b.pc.Done?
    ensures Lands(b, BodyOp(s, e, b, choice), reply, OnException(b, F.IsLookup(choice)))
  {
  }

  lemma StartLands(db: Db, cfg: Config, s: StepId, e: nat, b: Body, choice: Choice, reply: Reply)
    requires s in db.steps && StartPc(b.pc) && !b.analysis && !Escapes(b, choice)
    ensures Lands(b, BodyOp(s, e, b, choice), reply, ProceedStart(db, cfg, s, b, choice, reply).pc)
  {
  }

  lemma AgentLands(s: StepId, e: nat, b: Body, choice: Choice, reply: Reply)
    requires b.pc.Agent? && !Escapes(b, choice)
    ensures Lands(b, BodyOp(s, e, b, choice), reply, ProceedWork(b, choice, reply).pc)
  {
  }

  lemma WorkLands(s: StepId, e: nat, b: Body, choice: Choice, reply: Reply)
    requires WorkPc(b.pc) && !b.pc.Agent? && !b.pc.Done? && !Escapes(b, choice) && (SharedPc(b.pc) || !b.analysis)
    ensures Lands(b, BodyOp(s, e, b, choice), reply, ProceedWork(b, choice, reply).pc)
  {
  }

  lemma ResumeLands(db: Db, s: StepId, e: nat, b: Body, choice: Choice, reply: Reply)
    requires s in db.steps && ResumePc(b.pc) && !Escapes(b, choice)
    ensures Lands(b, BodyOp(s, e, b, choice), reply, ProceedResume(db, s, b, reply).pc)
  {
    hide LatestPending, NthSuspension, CommittedDecisions, Approvals;
  }

  lemma AnalysisLands(db: Db, s: StepId, e: nat, b: Body, choice: Choice, reply: Reply)
    requires AnalysisPc(b.pc) && !Escapes(b, choice)
    ensures Lands(b, BodyOp(s, e, b, choice), reply, ProceedAnalysis(db, s, b, choice, reply).pc)
  {
    hide HasFailed;
  }

  lemma Moves(db: Db, cfg: Config, s: StepId, e: nat, b: Body, choice: Choice, reply: Reply)
    requires s in db.steps && !b.pc.Done? && (SharedPc(b.pc) || AnalysisPc(b.pc) == b.analysis)
    ensures Lands(b, BodyOp(s, e, b, choice), reply, NextBody(db, cfg, s, b, choice, reply).pc)
  {
    hide Lands, BodyOp, ProceedStart, ProceedWork, ProceedResume, ProceedAnalysis, OnException;
    if Escapes(b, choice) {
      Thrown(db, cfg, s, b, choice, reply);
      ThrownLands(s, e, b, choice, reply);
    } else if AnalysisPc(b.pc) {
      AnalysisLands(db, s, e, b, choice, reply);
    } else if ResumePc(b.pc) {
      ResumeLands(db, s, e, b, choice, reply);
    } else if StartPc(b.pc) {
      StartLands(db, cfg, s, e, b, choice, reply);
    } else if b.pc.Agent? {
      AgentLands(s, e, b, choice, reply);
    } else {
      WorkLands(s, e, b, choice, reply);
    }
  }

  lemma OwnMatches(sys: Sys, s: StepId, e: nat, choice: Choice)
    requires ClaimInv(sys) && Enabled(sys, StepBody(s, e, choice)) && Matches(sys.db.events, s, e, sys.bodies[(s, e)])
    ensures var after := Act(sys, StepBody(s, e, choice));
            (s, e) in after.bodies && Matches(after.db.events, s, e, after.bodies[(s, e)])
  {
    hide Apply, NextBody, BodyOp, Wrote, Silent, ClaimsAreEpochs, OwnerClaimedLast, OneStepInFlight, OneStepPerRun, D.Inv, FencedKind;
    var b := sys.bodies[(s, e)];
    var op := BodyOp(s, e, b, choice);
    BodyMatched(sys, s, e);
    OwnBody(sys, s, e, choice);
    var rows := OwnRows(sys, s, e, choice);
    WroteMore(sys.db.events, rows, s, e);
    Moves(sys.db, sys.cfg, s, e, b, choice, Apply(sys.db, op).1);
  }

  lemma OwnBody(sys: Sys, s: StepId, e: nat, choice: Choice)
    requires BodiesMatch(sys) && Enabled(sys, StepBody(s, e, choice))
    ensures var after := Act(sys, StepBody(s, e, choice));
            && (s, e) in after.bodies && after.bodies[(s, e)].analysis == sys.bodies[(s, e)].analysis
            && after.bodies[(s, e)]
               == NextBody(sys.db, sys.cfg, s, sys.bodies[(s, e)], choice,
                           Apply(sys.db, BodyOp(s, e, sys.bodies[(s, e)], choice)).1)
  {
    hide Apply, NextBody, BodyOp;
    BodyMatched(sys, s, e);
    NextBodyMatches(sys.db, sys.cfg, s, e, sys.bodies[(s, e)], choice);
  }

  lemma FreshIsSilent(sys: Sys, s: StepId, e: nat)
    requires D.Attributed(sys.db) && s in sys.db.steps && e > sys.db.steps[s].epoch
    ensures Silent(sys.db.events, s, e)
  {
    forall i | 0 <= i < |sys.db.events| ensures sys.db.events[i].writer != ByLease(s, e) {
      assert D.AttributedRow(sys.db, sys.db.events[i]);
    }
  }

  lemma SilentMatches(events: seq<Event>, s: StepId, e: nat, b: Body)
    requires Silent(events, s, e) && (b.pc.ReadCycles? || b.pc.ReadFailed?)
    ensures Matches(events, s, e, b)
  {
  }

  lemma FreshMatches(sys: Sys, w: WorkerId, s: StepId)
    requires ClaimInv(sys) && Enabled(sys, TakeClaim(w, s))
    ensures var after, e := Act(sys, TakeClaim(w, s)), sys.db.steps[s].epoch + 1;
            (s, e) in after.bodies && Matches(after.db.events, s, e, after.bodies[(s, e)])
            && after.bodies == sys.bodies[(s, e) := after.bodies[(s, e)]]
  {
    hide ClaimsAreEpochs, BodiesMatch, OwnerClaimedLast, OneStepInFlight, OneStepPerRun, D.StepShape, D.Referential, D.Dense,
      D.EndsOnce, D.KeysUnique, D.EndedIsTerminal, D.EpochsOrdered, D.StateFollowsLog, Matches, Silent;
    var after, e := Act(sys, TakeClaim(w, s)), sys.db.steps[s].epoch + 1;
    FreshIsSilent(sys, s, e);
    NoRows(sys.db, OpOf(sys, TakeClaim(w, s)));
    SilentMatches(after.db.events, s, e, after.bodies[(s, e)]);
  }

  lemma OutcomeKept(sys: Sys, a: Action, s: StepId, e: nat)
    requires ClaimInv(sys) && ClaimsAreEpochs(sys) && (s, e) in Act(sys, a).bodies
    requires (s, e) in sys.bodies ==> Matches(sys.db.events, s, e, sys.bodies[(s, e)])
    ensures var after := Act(sys, a); Matches(after.db.events, s, e, after.bodies[(s, e)])
  {
    hide Act, Matches, ClaimsAreEpochs, ClaimInv, Enabled;
    if !Enabled(sys, a) {
      Disabled(sys, a);
    } else if (s, e) !in sys.bodies {
      NewBody(sys, a, s, e);
      FreshMatches(sys, a.worker, s);
    } else if F.OwnAction(a, s, e) {
      OwnMatches(sys, s, e, a.choice);
    } else {
      OtherKeepsBody(sys, a, s, e);
      OthersRows(sys, a, s, e);
      OthersMatch(sys.db.events, Act(sys, a).db.events, s, e, sys.bodies[(s, e)]);
    }
  }

  /** In every reachable state each body's program counter goes with what its claim has written. A step is
      released as completed only for a completed run, a suspension, a role refused on the record, or no
      principal at all; and one that has recorded step.failed never is. */
  lemma {:induction false} ReachableOutcomes(cfg: Config, actions: seq<Action>, s: StepId, e: nat)
    requires (s, e) in Reach(Initial(cfg), actions).bodies
    ensures var sys := Reach(Initial(cfg), actions); Matches(sys.db.events, s, e, sys.bodies[(s, e)])
  {
    if actions != [] {
      hide Act, Matches, ClaimInv, ClaimsAreEpochs;
      var before := actions[..|actions| - 1];
      var sys := Reach(Initial(cfg), before);
      ReachableClaims(cfg, before);
      ClaimsKnown(sys);
      if (s, e) in sys.bodies {
        ReachableOutcomes(cfg, before, s, e);
      }
      OutcomeKept(sys, actions[|actions| - 1], s, e);
    }
  }

  lemma OtherKeepsBody(sys: Sys, a: Action, s: StepId, e: nat)
    requires ClaimsAreEpochs(sys) && (s, e) in sys.bodies && !F.OwnAction(a, s, e)
    ensures (s, e) in Act(sys, a).bodies && Act(sys, a).bodies[(s, e)] == sys.bodies[(s, e)]
  {
    T.OthersLeaveBody(sys, a, s, e);
  }

  lemma NewBody(sys: Sys, a: Action, s: StepId, e: nat)
    requires Enabled(sys, a) && (s, e) !in sys.bodies && (s, e) in Act(sys, a).bodies
    ensures a.TakeClaim? && a.step == s && e == sys.db.steps[s].epoch + 1
  {
    hide Apply, NextBody, BodyOp;
  }
}
