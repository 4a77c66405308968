// How a body that fails ends its run: the cap, a refused resume, a failed analysis, and an analysis
// claimed again after its failure.
module Endings {
  import opened EventTypes
  import opened Schema
  import opened AppendPaths
  import opened Operations
  import D = DatabaseInvariants
  import opened Protocol
  import opened ClaimInvariants
  import G = StartInvariants
  import M = Admission
  import T = Theorems
  import F = Failures

  /** Where a body's next transaction is run.failed. */
  predicate EndsRun(pc: Pc) {
    pc == CapTerminal || pc == RefuseTerminal || pc == AnalysisFailTerminal || pc == FinishFailure
  }

  /** Where its next two are the event that says why, and run.failed. */
  predicate FailsRun(pc: Pc) {
    pc == CapEvent || pc == RefuseEvent || pc == AnalysisFailEvent
  }

  /** The event that says why. */
  function Cause(pc: Pc): Kind {
    if pc == CapEvent then Other("step.approval.cap.exceeded") else StepFailed
  }

  lemma CauseOp(s: StepId, e: nat, b: Body)
    requires FailsRun(b.pc)
    ensures BodyOp(s, e, b, Go) == AppendStep(b.run, s, e, Cause(b.pc), NoPayload, None)
  {
  }

  lemma EndOp(s: StepId, e: nat, b: Body)
    requires EndsRun(b.pc)
    ensures BodyOp(s, e, b, Go) == AppendTerminal(b.run, s, e, false, NoPayload)
  {
  }

  /** A committed cause leads to the ending. */
  lemma CauseLeads(db: Db, cfg: Config, s: StepId, b: Body, n: nat)
    requires s in db.steps && FailsRun(b.pc)
    ensures var next := NextBody(db, cfg, s, b, Go, Committed(n));
            next == b.(pc := next.pc) && EndsRun(next.pc) && next.pc != FinishFailure
            && (next.pc == CapTerminal <==> b.pc == CapEvent)
  {
  }

  lemma OwnFacts(cfg: Config, actions: seq<Action>, s: StepId, e: nat)
    requires (s, e) in Reach(Initial(cfg), actions).bodies
    ensures var sys := Reach(Initial(cfg), actions);
            && s in sys.db.steps && sys.bodies[(s, e)].run == sys.db.steps[s].run && sys.db.steps[s].run in sys.db.runs
            && (G.SeesBegun(sys.bodies[(s, e)]) ==> G.Begun(sys.db, sys.db.steps[s].run))
  {
    hide Reach, D.Inv, OneStepInFlight, OneStepPerRun, OwnerClaimedLast, G.SeesBegun;
    ReachableClaims(cfg, actions);
    G.ReachableStarts(cfg, actions);
    InvParts(Reach(Initial(cfg), actions).db);
    BodyMatched(Reach(Initial(cfg), actions), s, e);
  }

  /** The row with which a run's failure is recorded. */
  function Ended(db: Db, run: RunId, s: StepId, e: nat): Event
    requires run in db.runs
  {
    Event(run, db.runs[run].nextSeq + 1, RunFailed, None, None, NoPayload, ByLease(s, e))
  }

  /** What the ending leaves: a running run failed, with run.failed as its last event; any other as it
      was. */
  ghost predicate Failed(before: Db, after: Db, run: RunId, s: StepId, e: nat)
    requires run in before.runs
  {
    && run in after.runs
    && if before.runs[run].state == Running
       then after.runs[run].state == RunState.Failed && after.events == before.events + [Ended(before, run, s, e)]
       else after == before
  }

  /** In every reachable state, a body about to end its run does so under a lease that holds: a running
      run is failed, and a run the body has seen begin is over either way. */
  lemma EndingFails(cfg: Config, actions: seq<Action>, s: StepId, e: nat)
    requires var sys := Reach(Initial(cfg), actions);
             Enabled(sys, StepBody(s, e, Go)) && EndsRun(sys.bodies[(s, e)].pc) && Fence(sys.db, s, e)
    ensures var sys := Reach(Initial(cfg), actions);
            var after := Act(sys, StepBody(s, e, Go));
            var run := sys.db.steps[s].run;
            && run in sys.db.runs && Failed(sys.db, after.db, run, s, e)
            && (G.SeesBegun(sys.bodies[(s, e)]) ==> Terminal(after.db.runs[run].state))
  {
    hide Reach, Apply, BodyOp, NextBody, G.SeesBegun;
    var sys := Reach(Initial(cfg), actions);
    var b := sys.bodies[(s, e)];
    OwnFacts(cfg, actions, s, e);
    EndOp(s, e, b);
    EndCommits(sys.db, b.run, s, e);
    if G.SeesBegun(b) {
      T.BegunRunsOrEnds(cfg, actions, b.run);
    }
  }

  lemma EndCommits(db: Db, run: RunId, s: StepId, e: nat)
    requires Fence(db, s, e) && db.steps[s].run == run && run in db.runs
    ensures Failed(db, Apply(db, AppendTerminal(run, s, e, false, NoPayload)).0, run, s, e)
  {
    M.EndingExactly(db, run, s, e, false, NoPayload);
  }

  /** The first transaction commits its event under a lease that holds and leaves the body at the ending. */
  lemma CauseCommits(cfg: Config, actions: seq<Action>, s: StepId, e: nat)
    requires var sys := Reach(Initial(cfg), actions);
             Enabled(sys, StepBody(s, e, Go)) && FailsRun(sys.bodies[(s, e)].pc) && Fence(sys.db, s, e)
    ensures var sys, after := Reach(Initial(cfg), actions), Act(Reach(Initial(cfg), actions), StepBody(s, e, Go));
            var b, run := sys.bodies[(s, e)], sys.db.steps[s].run;
            && run in sys.db.runs && (s, e) in after.bodies
            && after.bodies[(s, e)] == b.(pc := after.bodies[(s, e)].pc) && EndsRun(after.bodies[(s, e)].pc)
            && (G.SeesBegun(b) ==> G.SeesBegun(after.bodies[(s, e)]))
            && after.db.events
               == sys.db.events + [Event(run, sys.db.runs[run].nextSeq + 1, Cause(b.pc), Some(s), None, NoPayload, ByLease(s, e))]
  {
    hide Reach, Apply, BodyOp, NextBody;
    var sys := Reach(Initial(cfg), actions);
    var b := sys.bodies[(s, e)];
    OwnFacts(cfg, actions, s, e);
    CauseOp(s, e, b);
    CauseAdds(sys.db, b.run, s, e, Cause(b.pc));
    CauseLeads(sys.db, sys.cfg, s, b, sys.db.runs[b.run].nextSeq + 1);
  }

  lemma CauseAdds(db: Db, run: RunId, s: StepId, e: nat, kind: Kind)
    requires Fence(db, s, e) && db.steps[s].run == run && run in db.runs && !kind.ToolInvoked?
    ensures var (after, reply) := Apply(db, AppendStep(run, s, e, kind, NoPayload, None));
            && reply == Committed(db.runs[run].nextSeq + 1)
            && after.events == db.events + [Event(run, db.runs[run].nextSeq + 1, kind, Some(s), None, NoPayload, ByLease(s, e))]
  {
    M.KindExactly(db, run, s, e, kind, NoPayload, None);
  }

  /** Over any execution: a body that fails its run, at the cap, at a refused resume or after a failed
      analysis, first records why and then ends the run, with any other actors' actions between and under
      leases that hold. A running run is failed, with run.failed last; and except at a cap reached before
      the run began, the run is over. */
  lemma FailureEndsTheRun(cfg: Config, actions: seq<Action>, i: nat, j: nat, s: StepId, e: nat)
    requires i < j < |actions| && actions[i] == StepBody(s, e, Go) && actions[j] == StepBody(s, e, Go)
    requires forall k :: i < k < j ==> !F.OwnAction(actions[k], s, e)
    requires var sys := Reach(Initial(cfg), actions[..i]);
             Enabled(sys, actions[i]) && FailsRun(sys.bodies[(s, e)].pc) && Fence(sys.db, s, e)
    requires var sys := Reach(Initial(cfg), actions[..j]); Enabled(sys, actions[j]) && Fence(sys.db, s, e)
    ensures var start, before, after := Reach(Initial(cfg), actions[..i]), Reach(Initial(cfg), actions[..j]),
                                        Reach(Initial(cfg), actions[..j + 1]);
            var run, n := before.db.steps[s].run, |start.db.events|;
            && n < |before.db.events| && before.db.events[n].kind == Cause(start.bodies[(s, e)].pc)
            && before.db.events[n].step == Some(s) && before.db.events[n].writer == ByLease(s, e)
            && run in before.db.runs && Failed(before.db, after.db, run, s, e)
            && (start.bodies[(s, e)].pc != CapEvent || start.bodies[(s, e)].cycles > 0 ==> Terminal(after.db.runs[run].state))
  {
    hide Reach, Act, Failed;
    CauseCommits(cfg, actions[..i], s, e);
    ReachStep(cfg, actions, i);
    ReachStep(cfg, actions, j);
    T.BodyWaits(cfg, actions, i + 1, j, s, e);
    EndingFails(cfg, actions[..j], s, e);
  }

  // ----- what brings a body there -------------------------------------------------------

  /** An analysis that cannot go on: its computation fails or throws, or its role or request is wrong and
      step.started has committed. */
  lemma AnalysisFails(db: Db, cfg: Config, s: StepId, b: Body, choice: Choice, reply: Reply)
    requires s in db.steps
    requires || (b.pc == Computing && (choice.Otherwise? || choice.Lost? || choice.LostReply?))
             || (b.pc == AnalysisStarting && choice.Otherwise? && reply.Committed?)
    ensures NextBody(db, cfg, s, b, choice, reply) == b.(pc := AnalysisFailEvent)
  {
  }

  /** One claimed after a failure is on record finishes it and computes nothing. */
  lemma FailedAnalysisFinishes(db: Db, cfg: Config, s: StepId, b: Body, reply: Reply)
    requires s in db.steps && b.pc == ReadFailed
    ensures NextBody(db, cfg, s, b, Go, reply)
            == b.(pc := if exists k :: 0 <= k < |db.events| && db.events[k].kind == StepFailed && db.events[k].step == Some(s)
                        then FinishFailure else AnalysisStarting)
  {
  }

  /** A step whose counter has reached the cap is not resumed. */
  lemma CapIsFinal(db: Db, cfg: Config, s: StepId, b: Body, reply: Reply)
    requires s in db.steps && b.pc == ReadCycles
    ensures var next := NextBody(db, cfg, s, b, Go, reply);
            && next.cycles == db.steps[s].cycles
            && (next.pc == CapEvent <==> db.steps[s].cycles >= cfg.cap)
            && (next.pc == ResumeRef <==> 0 < db.steps[s].cycles < cfg.cap)
            && (next.pc == LoadRole <==> db.steps[s].cycles == 0 < cfg.cap)
  {
  }

  /** The whole of it for an analysis: the computation fails, then two transactions of the body under
      leases that hold. Its log has step.failed and, if the run was still running, run.failed after it,
      and the run is over. */
  lemma FailedAnalysisEndsItsRun(cfg: Config, actions: seq<Action>, h: nat, i: nat, j: nat, s: StepId, e: nat, choice: Choice)
    requires h < i < j < |actions| && actions[h] == StepBody(s, e, choice)
    requires choice.Otherwise? || choice.Lost? || choice.LostReply?
    requires actions[i] == StepBody(s, e, Go) && actions[j] == StepBody(s, e, Go)
    requires forall k :: h < k < j && k != i ==> !F.OwnAction(actions[k], s, e)
    requires var sys := Reach(Initial(cfg), actions[..h]); Enabled(sys, actions[h]) && sys.bodies[(s, e)].pc == Computing
    requires var sys := Reach(Initial(cfg), actions[..i]); Enabled(sys, actions[i]) && Fence(sys.db, s, e)
    requires var sys := Reach(Initial(cfg), actions[..j]); Enabled(sys, actions[j]) && Fence(sys.db, s, e)
    ensures var before, after := Reach(Initial(cfg), actions[..j]), Reach(Initial(cfg), actions[..j + 1]);
            var run := before.db.steps[s].run;
            && (exists n :: 0 <= n < |before.db.events| && before.db.events[n].kind == StepFailed
                            && before.db.events[n].writer == ByLease(s, e))
            && run in before.db.runs && Failed(before.db, after.db, run, s, e) && Terminal(after.db.runs[run].state)
  {
    hide Reach, Act, Failed, NextBody;
    var sys := Reach(Initial(cfg), actions[..h]);
    OwnFacts(cfg, actions[..h], s, e);
    FailedStep(sys, s, e, choice);
    ReachStep(cfg, actions, h);
    T.BodyWaits(cfg, actions, h + 1, i, s, e);
    FailureEndsTheRun(cfg, actions, i, j, s, e);
  }

  lemma FailedStep(sys: Sys, s: StepId, e: nat, choice: Choice)
    requires Enabled(sys, StepBody(s, e, choice)) && sys.bodies[(s, e)].pc == Computing
    requires choice.Otherwise? || choice.Lost? || choice.LostReply?
    ensures var after := Act(sys, StepBody(s, e, choice));
            (s, e) in after.bodies && after.bodies[(s, e)] == sys.bodies[(s, e)].(pc := AnalysisFailEvent)
  {
    hide Apply, NextBody;
    AnalysisFails(sys.db, sys.cfg, s, sys.bodies[(s, e)], choice, Apply(sys.db, BodyOp(s, e, sys.bodies[(s, e)], choice)).1);
  }
}
