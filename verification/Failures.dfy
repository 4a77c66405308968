// When a body that throws is recorded. A comment at the resume's handler says a LookupError means the
// refusal has already written step.failed and run.failed; the handler catches every LookupError.
module Failures {
  import opened EventTypes
  import opened Schema
  import opened AppendPaths
  import opened Operations
  import D = DatabaseInvariants
  import opened Effects
  import opened Protocol
  import opened ClaimInvariants
  import A = ApprovalInvariants
  import T = Theorems

  /** The exceptions after which the body still writes step.failed: any thrown by the decision lookup
      or the analysis computation, any but a LookupError inside a resume, and any at all where the
      agent of a fresh run is at work. */
  predicate Recorded(b: Body, lookup: bool) {
    match b.pc
    case ResumeSuspension => true
    case ResumeDecisions => true
    case Computing => true
    case ResumeCycle => !lookup
    case Resuming => !lookup
    case RefuseEvent => !lookup
    case RefuseTerminal => !lookup
    case Agent => !(lookup && b.cycles > 0)
    case Terminating => !(lookup && b.cycles > 0)
    case _ => false
  }

  predicate OwnFailure(row: Event, s: StepId, e: nat) {
    row.kind.StepFailed? && row.writer == ByLease(s, e)
  }

  /** A step.failed of this claim is among the events from the n-th on. */
  ghost predicate FailureSince(events: seq<Event>, n: nat, s: StepId, e: nat) {
    exists k :: n <= k < |events| && OwnFailure(events[k], s, e)
  }

  predicate OwnAction(a: Action, s: StepId, e: nat) {
    a.StepBody? && a.step == s && a.epoch == e
  }

  /** Only the claim's own body writes under its lease. */
  lemma OthersWriteNone(sys: Sys, a: Action, s: StepId, e: nat, n: nat)
    requires !OwnAction(a, s, e) && n <= |sys.db.events| && !FailureSince(sys.db.events, n, s, e)
    ensures !FailureSince(Act(sys, a).db.events, n, s, e)
  {
    hide Apply, NextBody, BodyOp;
    if Enabled(sys, a) {
      var op := OpOf(sys, a);
      var rows := OpRows(sys.db, op);
      if a.StepBody? {
        A.BodyOpIsOwn(a.step, a.epoch, sys.bodies[(a.step, a.epoch)], a.choice);
      }
      forall k | n <= k < |sys.db.events + rows| ensures !OwnFailure((sys.db.events + rows)[k], s, e) {
        if k >= |sys.db.events| {
          assert (sys.db.events + rows)[k] == rows[k - |sys.db.events|];
        }
      }
    }
  }

  lemma {:induction false} QuietBetween(cfg: Config, actions: seq<Action>, i: nat, j: nat, s: StepId, e: nat, n: nat)
    requires i <= j <= |actions| && n <= |Reach(Initial(cfg), actions[..i]).db.events|
    requires (s, e) in Reach(Initial(cfg), actions[..i]).bodies
    requires forall k :: i <= k < j ==> !OwnAction(actions[k], s, e)
    requires !FailureSince(Reach(Initial(cfg), actions[..i]).db.events, n, s, e)
    ensures n <= |Reach(Initial(cfg), actions[..j]).db.events|
    ensures !FailureSince(Reach(Initial(cfg), actions[..j]).db.events, n, s, e)
    decreases j
  {
    hide Act, FailureSince;
    T.BodyWaits(cfg, actions, i, j, s, e);
    if i < j {
      QuietBetween(cfg, actions, i, j - 1, s, e, n);
      ReachStep(cfg, actions, j - 1);
      OthersWriteNone(Reach(Initial(cfg), actions[..j - 1]), actions[j - 1], s, e, n);
    }
  }

  /** An exception before the statement commits, a LookupError or not, or one after. */
  predicate Throws(choice: Choice) {
    choice.Lost? || choice.LostReply?
  }

  predicate IsLookup(choice: Choice) {
    choice.Lost? && choice.lookup
  }

  /** The statement that throws leaves the body to its handlers. */
  lemma ThrowActs(sys: Sys, s: StepId, e: nat, choice: Choice)
    requires Enabled(sys, StepBody(s, e, choice)) && Throws(choice)
    ensures var after := Act(sys, StepBody(s, e, choice));
            (s, e) in after.bodies && after.bodies[(s, e)].worker == sys.bodies[(s, e)].worker
            && after.bodies[(s, e)].pc == OnException(sys.bodies[(s, e)], IsLookup(choice))
  {
    hide Apply, ProceedStart, ProceedResume, ProceedAnalysis;
  }

  predicate Records(pc: Pc) {
    pc.FailEvent? || pc.RefuseEvent? || pc.AnalysisFailEvent?
  }

  lemma HandlersRecord(b: Body, lookup: bool)
    requires !b.pc.Done?
    ensures Recorded(b, lookup) ==> Records(OnException(b, lookup))
    ensures !Recorded(b, lookup) ==> OnException(b, lookup) == Done(Raised)
  {
  }

  lemma HandlerOp(s: StepId, e: nat, b: Body)
    requires Records(b.pc)
    ensures BodyOp(s, e, b, Go) == AppendStep(b.run, s, e, StepFailed, NoPayload, None)
  {
  }

  /** The handler's append commits under a lease that holds. */
  lemma HandlerWrites(cfg: Config, actions: seq<Action>, s: StepId, e: nat)
    requires var sys := Reach(Initial(cfg), actions);
             Enabled(sys, StepBody(s, e, Go)) && Records(sys.bodies[(s, e)].pc) && Fence(sys.db, s, e)
    ensures var sys := Reach(Initial(cfg), actions);
            var events := Act(sys, StepBody(s, e, Go)).db.events;
            |events| == |sys.db.events| + 1 && OwnFailure(events[|sys.db.events|], s, e)
  {
    hide Reach, Apply, BodyOp, NextBody, ClaimsAreEpochs, OwnerClaimedLast, OneStepInFlight, OneStepPerRun;
    var sys := Reach(Initial(cfg), actions);
    var b := sys.bodies[(s, e)];
    ReachableClaims(cfg, actions);
    BodyMatched(sys, s, e);
    InvParts(sys.db);
    HandlerOp(s, e, b);
    HandlerCommits(sys.db, b.run, s, e);
  }

  lemma HandlerCommits(db: Db, run: RunId, s: StepId, e: nat)
    requires D.Referential(db) && Fence(db, s, e) && db.steps[s].run == run
    ensures var events := Apply(db, AppendStep(run, s, e, StepFailed, NoPayload, None)).0.events;
            |events| == |db.events| + 1 && OwnFailure(events[|db.events|], s, e)
  {
  }

  /** An exception before or after a statement's commit is recorded by the body's next transaction, with
      anything other actors do in between and under a lease that holds then, if and only if the
      handlers around that statement record it. */
  lemma ExceptionRecorded(cfg: Config, actions: seq<Action>, i: nat, j: nat, s: StepId, e: nat, choice: Choice)
    requires i < j < |actions| && actions[i] == StepBody(s, e, choice) && Throws(choice) && actions[j] == StepBody(s, e, Go)
    requires forall k :: i < k < j ==> !OwnAction(actions[k], s, e)
    requires Enabled(Reach(Initial(cfg), actions[..i]), actions[i])
    requires var sys := Reach(Initial(cfg), actions[..j]);
             var w := Reach(Initial(cfg), actions[..i]).bodies[(s, e)].worker;
             Fence(sys.db, s, e) && w in sys.workers && !sys.workers[w].doing.Dead?
    ensures var n := |Reach(Initial(cfg), actions[..i + 1]).db.events|;
            FailureSince(Reach(Initial(cfg), actions[..j + 1]).db.events, n, s, e)
            <==> Recorded(Reach(Initial(cfg), actions[..i]).bodies[(s, e)], IsLookup(choice))
  {
    hide Act, Reach, OnException, FailureSince, Recorded;
    var before, sys := Reach(Initial(cfg), actions[..i]), Reach(Initial(cfg), actions[..j]);
    var b, n := before.bodies[(s, e)], |Reach(Initial(cfg), actions[..i + 1]).db.events|;
    ThrowActs(before, s, e, choice);
    ReachStep(cfg, actions, i);
    ReachStep(cfg, actions, j);
    T.BodyWaits(cfg, actions, i + 1, j, s, e);
    NoneYet(Reach(Initial(cfg), actions[..i + 1]).db.events, s, e);
    QuietBetween(cfg, actions, i + 1, j, s, e, n);
    HandlersRecord(b, IsLookup(choice));
    if Recorded(b, IsLookup(choice)) {
      HandlerWrites(cfg, actions[..j], s, e);
      Last(Reach(Initial(cfg), actions[..j + 1]).db.events, n, s, e);
    } else {
      NothingMore(sys, s, e);
    }
  }

  lemma NoneYet(events: seq<Event>, s: StepId, e: nat)
    ensures !FailureSince(events, |events|, s, e)
  {
  }

  lemma Last(events: seq<Event>, n: nat, s: StepId, e: nat)
    requires n < |events| && OwnFailure(events[|events| - 1], s, e)
    ensures FailureSince(events, n, s, e)
  {
  }

  lemma NothingMore(sys: Sys, s: StepId, e: nat)
    requires (s, e) in sys.bodies && sys.bodies[(s, e)].pc.Done?
    ensures forall choice :: Act(sys, StepBody(s, e, choice)) == sys
  {
  }

  /** One that they do not record never is, whatever happens afterwards. */
  lemma {:induction false} UnrecordedForGood(cfg: Config, actions: seq<Action>, i: nat, s: StepId, e: nat, choice: Choice)
    requires i < |actions| && actions[i] == StepBody(s, e, choice) && Throws(choice)
    requires Enabled(Reach(Initial(cfg), actions[..i]), actions[i])
    requires !Recorded(Reach(Initial(cfg), actions[..i]).bodies[(s, e)], IsLookup(choice))
    ensures var n, after := |Reach(Initial(cfg), actions[..i + 1]).db.events|, Reach(Initial(cfg), actions);
            && n <= |after.db.events| && !FailureSince(after.db.events, n, s, e)
            && (s, e) in after.bodies && after.bodies[(s, e)].pc == Done(Raised)
  {
    hide Act, Reach, OnException, FailureSince, Recorded;
    var before, k := Reach(Initial(cfg), actions[..i]), |actions| - 1;
    var n := |Reach(Initial(cfg), actions[..i + 1]).db.events|;
    assert actions[..k + 1] == actions;
    ReachStep(cfg, actions, k);
    if k == i {
      ThrowActs(before, s, e, choice);
      HandlersRecord(before.bodies[(s, e)], IsLookup(choice));
      NoneYet(Reach(Initial(cfg), actions).db.events, s, e);
    } else {
      assert actions[..k][..i] == actions[..i] && actions[..k][..i + 1] == actions[..i + 1];
      UnrecordedForGood(cfg, actions[..k], i, s, e, choice);
      ReachableClaims(cfg, actions[..k]);
      var sys := Reach(Initial(cfg), actions[..k]);
      if OwnAction(actions[k], s, e) {
        NothingMore(sys, s, e);
      } else {
        T.OthersLeaveBody(sys, actions[k], s, e);
        OthersWriteNone(sys, actions[k], s, e, n);
      }
    }
  }
}
