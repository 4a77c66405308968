// Resuming a suspended step: whatever a resumed agent is given was decided for the very
// suspension it is resuming from.
module ResumeInvariants {
  import opened EventTypes
  import opened Schema
  import opened AppendPaths
  import opened Operations
  import D = DatabaseInvariants
  import opened Effects
  import opened Logs
  import opened DecisionKeys
  import opened Protocol
  import opened ClaimInvariants
  import A = ApprovalInvariants

  // ----- what the resume reads have seen ------------------------------------------------

  /** While the claim is live, what the body read at each resume step is still what the tables
      say, although each read was its own transaction. */
  ghost predicate ReadsCurrent(db: Db, s: StepId, b: Body)
    requires s in db.steps
  {
    && (b.pc.ResumeCycle? || b.pc.ResumeSuspension? || b.pc.ResumeDecisions? || b.pc.Resuming? ==>
          LatestPending(db.events, s) == Some(b.pending))
    && (b.pc.ResumeSuspension? || b.pc.ResumeDecisions? || b.pc.Resuming? ==> b.cycle == db.steps[s].cycles)
    && (b.pc.ResumeDecisions? || b.pc.Resuming? ==> NthSuspension(db.events, s, b.cycle) == Some(b.suspension))
    && (b.pc.Resuming? ==>
          Approvals(CommittedDecisions(db.events, db.steps[s].run, b.suspension), b.pending) == Some(b.approvals))
  }

  ghost predicate ResumesCurrent(sys: Sys) {
    forall s, e :: A.Live(sys, s, e) ==> ReadsCurrent(sys.db, s, sys.bodies[(s, e)])
  }

  // ----- preservation -------------------------------------------------------------------

  lemma {:induction false} ForeignDecisions(events: seq<Event>, rows: seq<Event>, run: RunId, n: nat)
    requires forall i :: 0 <= i < |rows| ==> rows[i].run != run || !DecisionKind(rows[i].kind)
    ensures CommittedDecisions(events + rows, run, n) == CommittedDecisions(events, run, n)
  {
    if rows == [] {
      assert events + rows == events;
    } else {
      var k := |rows| - 1;
      ForeignDecisions(events, rows[..k], run, n);
      assert (events + rows)[..|events| + k] == events + rows[..k];
    }
  }

  /** Rows of other steps leave every resume read as it was. */
  lemma ReadsUnmoved(db: Db, db': Db, rows: seq<Event>, s: StepId, b: Body)
    requires s in db.steps && s in db'.steps && db'.events == db.events + rows
    requires db'.steps[s].cycles == db.steps[s].cycles && db'.steps[s].run == db.steps[s].run
    requires forall i :: 0 <= i < |rows| ==> rows[i].step != Some(s)
    requires forall i :: 0 <= i < |rows| ==> rows[i].run != db.steps[s].run || !DecisionKind(rows[i].kind)
    requires ReadsCurrent(db, s, b)
    ensures ReadsCurrent(db', s, b)
  {
    ForeignRowsChangeNothing(db.events, rows, s);
    ForeignDecisions(db.events, rows, db.steps[s].run, b.suspension);
  }

  predicate ResumeReads(pc: Pc) {
    pc.ResumeCycle? || pc.ResumeSuspension? || pc.ResumeDecisions? || pc.Resuming?
  }

  predicate MakesResumeRead(pc: Pc) {
    pc.ResumeRef? || pc.ResumeCycle? || pc.ResumeSuspension? || pc.ResumeDecisions?
  }

  lemma ReadsEnterReads(db: Db, s: StepId, b: Body, reply: Reply)
    requires s in db.steps && ResumePc(b.pc) && ResumeReads(ProceedResume(db, s, b, reply).pc)
    ensures MakesResumeRead(b.pc)
  {
    hide LatestPending, NthSuspension, CommittedDecisions, Approvals;
  }

  lemma ResumeEnteredByReading(db: Db, cfg: Config, s: StepId, b: Body, choice: Choice, reply: Reply)
    requires s in db.steps && !b.pc.Done?
    ensures ResumeReads(NextBody(db, cfg, s, b, choice, reply).pc) ==>
              MakesResumeRead(b.pc) && !choice.Lost? && !choice.LostReply?
  {
    hide OnException, ProceedStart, ProceedResume, ProceedWork, ProceedAnalysis;
    if ResumeReads(NextBody(db, cfg, s, b, choice, reply).pc) {
      ReadsEnterReads(db, s, b, reply);
    }
  }

  /** The body's own resume reads: each sees the tables of its moment. */
  lemma OwnReads(db: Db, cfg: Config, s: StepId, b: Body, choice: Choice, reply: Reply)
    requires s in db.steps && MakesResumeRead(b.pc) && ReadsCurrent(db, s, b) && !choice.Lost? && !choice.LostReply?
    ensures ReadsCurrent(db, s, NextBody(db, cfg, s, b, choice, reply))
  {
    hide ReadsCurrent, ProceedStart, ProceedResume, ProceedWork, ProceedAnalysis;
    assert NextBody(db, cfg, s, b, choice, reply) == ProceedResume(db, s, b, reply);
    OneRead(db, s, b, reply);
  }

  lemma OneRead(db: Db, s: StepId, b: Body, reply: Reply)
    requires s in db.steps && MakesResumeRead(b.pc) && ReadsCurrent(db, s, b)
    ensures ReadsCurrent(db, s, ProceedResume(db, s, b, reply))
  {
    hide LatestPending, NthSuspension, CommittedDecisions, Approvals;
  }

  lemma ReadsIssueNothing(s: StepId, e: nat, b: Body, choice: Choice)
    requires MakesResumeRead(b.pc)
    ensures BodyOp(s, e, b, choice).Nothing?
  {
  }

  lemma ForeignActionReads(sys: Sys, a: Action, rows: seq<Event>, s: StepId, e: nat)
    requires ClaimsAreEpochs(sys) && OneStepPerRun(sys.db) && A.HoldsAreHeld(sys) && ResumesCurrent(sys)
    requires Enabled(sys, a) && A.Live(sys, s, e) && !sys.bodies[(s, e)].held
    requires Act(sys, a).db.events == sys.db.events + rows && OpAdds(sys.db, OpOf(sys, a), rows)
    requires !(a.StepBody? && a.step == s && a.epoch == e)
    requires forall i :: 0 <= i < |rows| && DecisionKind(rows[i].kind) ==> rows[i].writer.ByDecision?
    ensures s in Act(sys, a).db.steps && ReadsCurrent(Act(sys, a).db, s, sys.bodies[(s, e)])
  {
    hide Apply, NextBody, BodyOp, ReadsCurrent;
    var op := OpOf(sys, a);
    A.QuietWhileClaimed(sys, a, s, e);
    A.OnlyOwnRows(sys, a, s, e, rows);
    RowEffect(sys.db, op, s);
    ReadsUnmoved(sys.db, Act(sys, a).db, rows, s, sys.bodies[(s, e)]);
  }

  lemma IdleReadsCurrent(db: Db, s: StepId, b: Body)
    requires s in db.steps
    requires !b.pc.ResumeCycle? && !b.pc.ResumeSuspension? && !b.pc.ResumeDecisions? && !b.pc.Resuming?
    ensures ReadsCurrent(db, s, b)
  {
  }

  lemma LiveReads(sys: Sys, a: Action, rows: seq<Event>, s: StepId, e: nat)
    requires ClaimsAreEpochs(sys) && BodiesMatch(sys) && OneStepPerRun(sys.db) && A.HoldsAreHeld(sys) && ResumesCurrent(sys)
    requires Enabled(sys, a) && A.Live(Act(sys, a), s, e)
    requires Act(sys, a).db.events == sys.db.events + rows && OpAdds(sys.db, OpOf(sys, a), rows)
    requires forall i :: 0 <= i < |rows| && DecisionKind(rows[i].kind) ==> rows[i].writer.ByDecision?
    ensures ReadsCurrent(Act(sys, a).db, s, Act(sys, a).bodies[(s, e)])
  {
    hide Apply, NextBody, BodyOp, ReadsCurrent, OpAdds;
    var b' := Act(sys, a).bodies[(s, e)];
    if !b'.pc.ResumeCycle? && !b'.pc.ResumeSuspension? && !b'.pc.ResumeDecisions? && !b'.pc.Resuming? {
      IdleReadsCurrent(Act(sys, a).db, s, b');
    } else if a.StepBody? && a.step == s && a.epoch == e {
      var b := sys.bodies[(s, e)];
      A.BodyOpIsOwn(s, e, b, a.choice);
      RowEffect(sys.db, OpOf(sys, a), s);
      var reply := Apply(sys.db, OpOf(sys, a)).1;
      ResumeEnteredByReading(sys.db, sys.cfg, s, b, a.choice, reply);
      OwnReads(sys.db, sys.cfg, s, b, a.choice, reply);
      ReadsIssueNothing(s, e, b, a.choice);
      NothingMoves(sys.db);
    } else {
      A.WasLive(sys, a, s, e);
      BodyMatched(sys, s, e);
      ForeignActionReads(sys, a, rows, s, e);
    }
  }

  lemma NothingMoves(db: Db)
    ensures Apply(db, Nothing).0 == db
  {
  }

  lemma ResumesCurrentKept(sys: Sys, a: Action)
    requires ClaimInv(sys) && ClaimInv(Act(sys, a)) && A.HoldsAreHeld(sys) && ResumesCurrent(sys)
    ensures ResumesCurrent(Act(sys, a))
  {
    hide Apply, NextBody, BodyOp, ReadsCurrent, OpAdds, D.Dense, D.EpochsOrdered, D.StateFollowsLog, D.EndsOnce,
      D.EndedIsTerminal, D.KeysUnique, D.Referential, D.StepShape, OwnerClaimedLast, OneStepInFlight;
    if Enabled(sys, a) {
      var rows := OpRows(sys.db, OpOf(sys, a));
      forall i | 0 <= i < |rows| && DecisionKind(rows[i].kind) ensures rows[i].writer.ByDecision? {
        assert Act(sys, a).db.events[|sys.db.events| + i] == rows[i];
        assert D.AttributedRow(Act(sys, a).db, rows[i]);
      }
      forall s, e | A.Live(Act(sys, a), s, e) ensures ReadsCurrent(Act(sys, a).db, s, Act(sys, a).bodies[(s, e)]) {
        LiveReads(sys, a, rows, s, e);
      }
    }
  }

  lemma {:induction false} ReachableResumes(cfg: Config, actions: seq<Action>)
    ensures ResumesCurrent(Reach(Initial(cfg), actions))
  {
    if actions != [] {
      var before := actions[..|actions| - 1];
      ReachableResumes(cfg, before);
      ReachableClaims(cfg, before);
      ReachableClaims(cfg, actions);
      A.ReachableApprovals(cfg, before);
      ResumesCurrentKept(Reach(Initial(cfg), before), actions[|actions| - 1]);
    }
  }

  // ----- what a resumed agent is given --------------------------------------------------

  predicate Asked(e: Event, id: string) {
    e.payload.PendingCalls? && id in e.payload.ids
  }

  /** The agent never asks approval for the same call id at two suspensions of a step. */
  ghost predicate CallIdsNotReused(events: seq<Event>, s: StepId) {
    forall i, j, id :: 0 <= i < |Suspensions(events, s)| && 0 <= j < |Suspensions(events, s)|
      && Asked(Suspensions(events, s)[i], id) && Asked(Suspensions(events, s)[j], id)
      ==> i == j
  }

  /** The approver answers only calls the named suspension asked about. */
  ghost predicate DecisionsNameAskedCalls(events: seq<Event>, s: StepId) {
    forall i, k :: 0 <= i < |events| && 0 <= k < |Suspensions(events, s)| && events[i].step == Some(s)
      && events[i].writer.ByDecision? && events[i].writer.suspension == Suspensions(events, s)[k].seqNo
      ==> Asked(Suspensions(events, s)[k], events[i].writer.call)
  }

  /** The approvals map is exactly the committed decisions of the step's suspension at seq n. */
  ghost predicate ExactlyDecided(events: seq<Event>, run: RunId, n: nat, pending: seq<string>, approvals: map<string, bool>) {
    && (forall id :: id in approvals <==> id in pending)
    && (forall id :: id in approvals ==>
          exists i :: 0 <= i < |events| && Answers(events[i], run, n, id)
                      && approvals[id] == events[i].kind.ApprovalGranted?)
    && (forall i :: 0 <= i < |events| && AnswersSome(events[i], run, n) ==>
          events[i].writer.call in approvals && approvals[events[i].writer.call] == events[i].kind.ApprovalGranted?)
  }

  ghost predicate SomeAnswer(events: seq<Event>, run: RunId, n: nat, call: string) {
    exists i :: 0 <= i < |events| && Answers(events[i], run, n, call)
  }

  /** The lookup finds a map exactly when some decision, and every pending call's decision, is
      committed under the suspension it was given. */
  lemma ApprovalsFound(events: seq<Event>, run: RunId, n: nat, pending: seq<string>)
    requires Keyed(events) && D.KeysUnique(events)
    ensures Approvals(CommittedDecisions(events, run, n), pending).Some? <==>
              (&& (exists call :: SomeAnswer(events, run, n, call))
               && (forall k :: 0 <= k < |pending| ==> SomeAnswer(events, run, n, pending[k])))
  {
    var found := CommittedDecisions(events, run, n);
    forall id ensures id in found <==> SomeAnswer(events, run, n, id) {
      LookupIsExact(events, run, n, id);
    }
    if found != map[] {
      var id :| id in found;
      assert SomeAnswer(events, run, n, id);
    }
  }

  /** Under the two assumptions on call ids, a decision of the cycle-th suspension that names a
      pending call of the latest one shows they are the same suspension. */
  lemma SameSuspension(db: Db, s: StepId, cycle: nat, call: string)
    requires D.Attributed(db) && OneStepPerRun(db) && s in db.steps
    requires CallIdsNotReused(db.events, s) && DecisionsNameAskedCalls(db.events, s)
    requires 1 <= cycle <= |Suspensions(db.events, s)|
    requires SomeAnswer(db.events, db.steps[s].run, Suspensions(db.events, s)[cycle - 1].seqNo, call)
    requires var log := Suspensions(db.events, s); Asked(log[|log| - 1], call)
    ensures cycle == |Suspensions(db.events, s)|
  {
    var log := Suspensions(db.events, s);
    var i :| 0 <= i < |db.events| && Answers(db.events[i], db.steps[s].run, log[cycle - 1].seqNo, call);
    assert D.AttributedRow(db, db.events[i]);
    assert db.events[i].step == Some(s);
    assert Asked(log[cycle - 1], call);
  }

  lemma EveryAnswerApplied(db: Db, s: StepId, pending: seq<string>, i: nat)
    requires D.Attributed(db) && D.KeysUnique(db.events) && OneStepPerRun(db) && s in db.steps
    requires DecisionsNameAskedCalls(db.events, s)
    requires var log := Suspensions(db.events, s);
             && log != [] && log[|log| - 1].payload == PendingCalls(pending)
             && i < |db.events| && AnswersSome(db.events[i], db.steps[s].run, log[|log| - 1].seqNo)
    ensures var log := Suspensions(db.events, s);
            var found := CommittedDecisions(db.events, db.steps[s].run, log[|log| - 1].seqNo);
            var call := db.events[i].writer.call;
            call in pending && call in found && found[call] == db.events[i].kind.ApprovalGranted?
  {
    hide CommittedDecisions;
    var log := Suspensions(db.events, s);
    AttributedIsKeyed(db);
    LookupIsExact(db.events, db.steps[s].run, log[|log| - 1].seqNo, db.events[i].writer.call);
    assert D.AttributedRow(db, db.events[i]);
    assert Asked(log[|log| - 1], db.events[i].writer.call);
  }

  lemma ApprovalsAreExact(db: Db, s: StepId, pending: seq<string>, approvals: map<string, bool>)
    requires D.Attributed(db) && D.KeysUnique(db.events) && OneStepPerRun(db) && s in db.steps
    requires DecisionsNameAskedCalls(db.events, s)
    requires var log := Suspensions(db.events, s);
             && log != [] && log[|log| - 1].payload == PendingCalls(pending)
             && Approvals(CommittedDecisions(db.events, db.steps[s].run, log[|log| - 1].seqNo), pending) == Some(approvals)
    ensures var log := Suspensions(db.events, s);
            ExactlyDecided(db.events, db.steps[s].run, log[|log| - 1].seqNo, pending, approvals)
  {
    hide D.Attributed, D.KeysUnique, OneStepPerRun, DecisionsNameAskedCalls, Suspensions, CommittedDecisions;
    var log := Suspensions(db.events, s);
    var n, run := log[|log| - 1].seqNo, db.steps[s].run;
    AttributedIsKeyed(db);
    forall id | id in approvals
      ensures exists i :: 0 <= i < |db.events| && Answers(db.events[i], run, n, id)
                          && approvals[id] == db.events[i].kind.ApprovalGranted?
    {
      LookupIsExact(db.events, run, n, id);
    }
    forall i | 0 <= i < |db.events| && AnswersSome(db.events[i], run, n)
      ensures db.events[i].writer.call in approvals
              && approvals[db.events[i].writer.call] == db.events[i].kind.ApprovalGranted?
    {
      EveryAnswerApplied(db, s, pending, i);
    }
  }

  lemma NothingAskedNothingApplied(committed: map<string, bool>)
    ensures Approvals(committed, []).Some? ==> Approvals(committed, []).value == map[]
  {
  }

  /** What the approvals a resume has read are, when its reads are current. */
  lemma ReadApprovalsAreOwn(db: Db, s: StepId, b: Body)
    requires D.Inv(db) && OneStepPerRun(db) && s in db.steps
    requires CallIdsNotReused(db.events, s) && DecisionsNameAskedCalls(db.events, s)
    requires LatestPending(db.events, s) == Some(b.pending) && NthSuspension(db.events, s, b.cycle) == Some(b.suspension)
    requires Approvals(CommittedDecisions(db.events, db.steps[s].run, b.suspension), b.pending) == Some(b.approvals)
    ensures var log := Suspensions(db.events, s);
            && log != [] && log[|log| - 1].payload == PendingCalls(b.pending)
            && (if b.pending == [] then b.approvals == map[]
                else b.cycle == |log| && b.suspension == log[|log| - 1].seqNo
                     && ExactlyDecided(db.events, db.steps[s].run, b.suspension, b.pending, b.approvals))
  {
    hide D.Dense, D.EpochsOrdered, D.StateFollowsLog, D.EndsOnce, D.EndedIsTerminal, D.KeysUnique, D.Referential, D.StepShape,
      D.Attributed, CallIdsNotReused, DecisionsNameAskedCalls, ExactlyDecided, CommittedDecisions, Approvals, OneStepPerRun,
      Suspensions;
    var log := Suspensions(db.events, s);
    AttributedIsKeyed(db);
    ApprovalsFound(db.events, db.steps[s].run, b.suspension, b.pending);
    if b.pending == [] {
      NothingAskedNothingApplied(CommittedDecisions(db.events, db.steps[s].run, b.suspension));
    } else {
      assert Asked(log[|log| - 1], b.pending[0]);
      SameSuspension(db, s, b.cycle, b.pending[0]);
      ApprovalsAreExact(db, s, b.pending, b.approvals);
    }
  }

  /** In every reachable state, when a resuming body commits step.resumed the decisions it is
      about to apply are exactly the committed decisions of the step's latest suspension, and
      that is the suspension its cycle counter selected. Call ids are assumed unused before and
      decisions to name asked calls. Resuming from a suspension that asked nothing applies nothing. */
  lemma ResumeAppliesItsOwnDecisions(cfg: Config, actions: seq<Action>, s: StepId, e: nat)
    requires var sys := Reach(Initial(cfg), actions);
             && (s, e) in sys.bodies && sys.bodies[(s, e)].pc.Resuming? && Fence(sys.db, s, e)
             && CallIdsNotReused(sys.db.events, s) && DecisionsNameAskedCalls(sys.db.events, s)
    ensures var sys := Reach(Initial(cfg), actions);
            var b := sys.bodies[(s, e)];
            var log := Suspensions(sys.db.events, s);
            && log != [] && log[|log| - 1].payload == PendingCalls(b.pending)
            && (if b.pending == [] then b.approvals == map[]
                else b.cycle == |log| && b.suspension == log[|log| - 1].seqNo
                     && ExactlyDecided(sys.db.events, sys.db.steps[s].run, b.suspension, b.pending, b.approvals))
  {
    hide D.Inv, OwnerClaimedLast, OneStepInFlight, ClaimsAreEpochs, BodiesMatch, CallIdsNotReused, DecisionsNameAskedCalls,
      ExactlyDecided, CommittedDecisions, Approvals, Reach, OneStepPerRun, Suspensions, LatestPending, NthSuspension;
    var sys := Reach(Initial(cfg), actions);
    ReachableClaims(cfg, actions);
    ReachableResumes(cfg, actions);
    assert A.Live(sys, s, e);
    ReadApprovalsAreOwn(sys.db, s, sys.bodies[(s, e)]);
  }

  /** At the decision lookup a live resume goes on exactly when its cycle selected the latest
      suspension and every call that suspension asked about is decided; otherwise it refuses. */
  lemma ResumeRefusesExactly(cfg: Config, actions: seq<Action>, s: StepId, e: nat)
    requires var sys := Reach(Initial(cfg), actions);
             && A.Live(sys, s, e) && sys.bodies[(s, e)].pc.ResumeDecisions? && sys.bodies[(s, e)].pending != []
             && CallIdsNotReused(sys.db.events, s) && DecisionsNameAskedCalls(sys.db.events, s)
    ensures var sys := Reach(Initial(cfg), actions);
            var b := sys.bodies[(s, e)];
            var log := Suspensions(sys.db.events, s);
            var next := NextBody(sys.db, sys.cfg, s, b, Go, Rows(0)).pc;
            && log != []
            && (next.Resuming? <==> b.cycle == |log| && AllAnswered(sys.db, s, log[|log| - 1].seqNo, b.pending))
            && (!next.Resuming? ==> next.RefuseEvent?)
  {
    hide D.Inv, ClaimsAreEpochs, BodiesMatch, OwnerClaimedLast, OneStepInFlight, CallIdsNotReused, DecisionsNameAskedCalls,
      CommittedDecisions, Approvals, Reach, OneStepPerRun, AllAnswered, Suspensions;
    var sys := Reach(Initial(cfg), actions);
    ReachableClaims(cfg, actions);
    ReachableResumes(cfg, actions);
    LookupDecides(sys.db, s, sys.bodies[(s, e)]);
  }

  ghost predicate AllAnswered(db: Db, s: StepId, n: nat, pending: seq<string>)
    requires s in db.steps
  {
    forall k :: 0 <= k < |pending| ==> SomeAnswer(db.events, db.steps[s].run, n, pending[k])
  }

  lemma LookupDecides(db: Db, s: StepId, b: Body)
    requires D.Inv(db) && OneStepPerRun(db) && s in db.steps && b.pending != []
    requires CallIdsNotReused(db.events, s) && DecisionsNameAskedCalls(db.events, s)
    requires LatestPending(db.events, s) == Some(b.pending) && NthSuspension(db.events, s, b.cycle) == Some(b.suspension)
    ensures var log := Suspensions(db.events, s);
            && log != []
            && (Approvals(CommittedDecisions(db.events, db.steps[s].run, b.suspension), b.pending).Some? <==>
                  b.cycle == |log| && AllAnswered(db, s, log[|log| - 1].seqNo, b.pending))
  {
    hide D.Dense, D.EpochsOrdered, D.StateFollowsLog, D.EndsOnce, D.EndedIsTerminal, D.KeysUnique, D.Referential, D.StepShape,
      D.Attributed, CallIdsNotReused, DecisionsNameAskedCalls, CommittedDecisions, Approvals, OneStepPerRun, SomeAnswer;
    var log := Suspensions(db.events, s);
    AttributedIsKeyed(db);
    ApprovalsFound(db.events, db.steps[s].run, b.suspension, b.pending);
    assert Asked(log[|log| - 1], b.pending[0]);
    if SomeAnswer(db.events, db.steps[s].run, b.suspension, b.pending[0]) {
      SameSuspension(db, s, b.cycle, b.pending[0]);
    }
  }
}
