// When a decision call commits, and what it leaves: the exact conditions at the tables, at the string
// arguments, and in every reachable state.
module Decisions {
  import opened EventTypes
  import opened Schema
  import opened AppendPaths
  import opened Operations
  import D = DatabaseInvariants
  import opened Effects
  import opened Logs
  import opened DecisionKeys
  import opened Protocol
  import opened ClaimInvariants
  import A = ApprovalInvariants
  import T = Theorems

  predicate DistinctCalls(pairs: seq<Pair>) {
    forall i, j :: 0 <= i < j < |pairs| ==> pairs[i].call != pairs[j].call
  }

  /** No decision row of the run carries the key of this call of this suspension. */
  ghost predicate Unanswered(events: seq<Event>, run: RunId, suspension: nat, call: string) {
    forall k :: 0 <= k < |events| && events[k].run == run && (events[k].kind.ApprovalGranted? || events[k].kind.ApprovalRejected?)
      ==> events[k].key != Some(DecisionKey(suspension, call))
  }

  ghost predicate AllUnanswered(events: seq<Event>, run: RunId, suspension: nat, pairs: seq<Pair>) {
    forall i :: 0 <= i < |pairs| ==> Unanswered(events, run, suspension, pairs[i].call)
  }

  predicate SuspendsStep(e: Event, step: StepId) {
    e.kind == StepSuspended && e.step == Some(step)
  }

  /** The seq is that of a suspension of the step, and none is later. */
  ghost predicate LatestSuspension(events: seq<Event>, step: StepId, n: nat) {
    && (exists k :: 0 <= k < |events| && SuspendsStep(events[k], step) && events[k].seqNo == n)
    && (forall k :: 0 <= k < |events| && SuspendsStep(events[k], step) ==> events[k].seqNo <= n)
  }

  /** The step is the run's, on hold, and was last suspended at this seq. */
  ghost predicate Answerable(db: Db, run: RunId, step: StepId, suspension: nat) {
    && step in db.steps && db.steps[step].run == run && db.steps[step].awaiting && run in db.runs
    && LatestSuspension(db.events, step, suspension)
  }

  /** The row of one pair, at its place in the call. */
  function DecisionRow(run: RunId, seqNo: nat, step: StepId, suspension: nat, cycle: nat, pair: Pair): Event {
    Event(run, seqNo, if pair.granted then ApprovalGranted else ApprovalRejected, Some(step),
          Some(DecisionKey(suspension, pair.call)), NoPayload, ByDecision(suspension, pair.call, cycle))
  }

  /** One row a pair, in order, after the n rows the run had. */
  ghost predicate RowsOf(rows: seq<Event>, run: RunId, n: nat, step: StepId, suspension: nat, cycle: nat, pairs: seq<Pair>) {
    |rows| == |pairs| && forall i :: 0 <= i < |rows| ==> rows[i] == DecisionRow(run, n + i + 1, step, suspension, cycle, pairs[i])
  }

  // ----- the rows -----------------------------------------------------------------------

  /** The tables after n rows more of the run. */
  ghost predicate Extended(db: Db, after: Db, run: RunId, rows: seq<Event>)
    requires run in db.runs
  {
    after == Db(db.runs[run := Run(db.runs[run].state, db.runs[run].nextSeq + |rows|)], db.steps, db.events + rows, db.now)
  }

  lemma ExtendedOnce(db: Db, mid: Db, run: RunId, rows: seq<Event>, row: Event)
    requires run in db.runs && Extended(db, mid, run, rows)
    ensures Extended(db, Db(mid.runs[run := Run(mid.runs[run].state, mid.runs[run].nextSeq + 1)], mid.steps,
                            mid.events + [row], mid.now), run, rows + [row])
  {
    assert db.events + rows + [row] == db.events + (rows + [row]);
  }

  /** A row of this call among those already there answers a later pair exactly if they name one call. */
  lemma AnsweredSoFar(db: Db, mid: Db, run: RunId, step: StepId, suspension: nat, cycle: nat, pairs: seq<Pair>,
                      rows: seq<Event>, call: string)
    requires run in db.runs && Extended(db, mid, run, rows)
    requires RowsOf(rows, run, db.runs[run].nextSeq, step, suspension, cycle, pairs)
    ensures HasKey(mid.events, run, DecisionKey(suspension, call))
            <==> !Unanswered(db.events, run, suspension, call) || exists i :: 0 <= i < |pairs| && pairs[i].call == call
  {
    var key := DecisionKey(suspension, call);
    if HasKey(mid.events, run, key) {
      var k :| 0 <= k < |mid.events| && mid.events[k].run == run && DecisionKind(mid.events[k].kind) && mid.events[k].key == Some(key);
      if k >= |db.events| {
        var i := k - |db.events|;
        assert mid.events[k] == rows[i];
        KeysInjective(suspension, pairs[i].call, suspension, call);
      }
    }
    if !Unanswered(db.events, run, suspension, call) {
      var k :| 0 <= k < |db.events| && db.events[k].run == run && DecisionKind(db.events[k].kind) && db.events[k].key == Some(key);
      assert mid.events[k] == db.events[k];
    }
    forall i | 0 <= i < |pairs| && pairs[i].call == call ensures HasKey(mid.events, run, key) {
      assert mid.events[|db.events| + i] == rows[i];
    }
  }

  /** The insert loop goes through exactly when no pair's key is taken, by the log or by an earlier pair. */
  lemma {:induction false} InsertsExactly(db: Db, run: RunId, step: StepId, suspension: nat, cycle: nat, pairs: seq<Pair>)
    returns (rows: seq<Event>)
    requires run in db.runs
    ensures var after := InsertDecisions(db, run, step, suspension, cycle, pairs);
            && (after.Some? <==> DistinctCalls(pairs) && AllUnanswered(db.events, run, suspension, pairs))
            && (after.Some? ==>
                  Extended(db, after.value, run, rows)
                  && RowsOf(rows, run, db.runs[run].nextSeq, step, suspension, cycle, pairs))
  {
    rows := [];
    if pairs == [] {
      assert db.runs[run := Run(db.runs[run].state, db.runs[run].nextSeq + 0)] == db.runs;
      assert db.events + [] == db.events;
    } else {
      hide Unanswered, HasKey, DecisionKey;
      var k := |pairs| - 1;
      var first, last := pairs[..k], pairs[k];
      rows := InsertsExactly(db, run, step, suspension, cycle, first);
      var before := InsertDecisions(db, run, step, suspension, cycle, first);
      assert forall i :: 0 <= i < k ==> first[i] == pairs[i];
      if before.Some? {
        AnsweredSoFar(db, before.value, run, step, suspension, cycle, first, rows, last.call);
        var row := DecisionRow(run, before.value.runs[run].nextSeq + 1, step, suspension, cycle, last);
        ExtendedOnce(db, before.value, run, rows, row);
        rows := rows + [row];
      }
    }
  }

  // ----- the call -----------------------------------------------------------------------

  lemma {:induction false} SuspensionsAre(events: seq<Event>, step: StepId, e: Event)
    ensures e in Suspensions(events, step) <==> e in events && SuspendsStep(e, step)
  {
    if events != [] {
      var k := |events| - 1;
      SuspensionsAre(events[..k], step, e);
      assert events == events[..k] + [events[k]];
    }
  }

  lemma {:induction false} MaxSeqIs(log: seq<Event>, n: nat)
    requires exists i :: 0 <= i < |log| && log[i].seqNo == n
    ensures MaxSeq(log) == n <==> forall i :: 0 <= i < |log| ==> log[i].seqNo <= n
  {
    MaxAttained(log);
  }

  lemma {:induction false} MaxAttained(log: seq<Event>)
    requires log != []
    ensures MaxSeq(log) == 0 || exists i :: 0 <= i < |log| && log[i].seqNo == MaxSeq(log)
  {
    var k := |log| - 1;
    if k > 0 {
      MaxAttained(log[..k]);
      if i :| 0 <= i < k && log[..k][i].seqNo == MaxSeq(log[..k]) {
        assert log[i].seqNo == MaxSeq(log[..k]);
      }
    }
    assert log[k].seqNo == log[k].seqNo;
  }

  lemma LogHas(events: seq<Event>, step: StepId, n: nat)
    ensures var log := Suspensions(events, step);
            (exists i :: 0 <= i < |log| && log[i].seqNo == n)
            <==> exists k :: 0 <= k < |events| && SuspendsStep(events[k], step) && events[k].seqNo == n
  {
    hide Suspensions;
    var log := Suspensions(events, step);
    forall i | 0 <= i < |log| && log[i].seqNo == n
      ensures exists k :: 0 <= k < |events| && SuspendsStep(events[k], step) && events[k].seqNo == n
    {
      SuspensionsAre(events, step, log[i]);
      var k :| 0 <= k < |events| && events[k] == log[i];
      assert SuspendsStep(events[k], step);
    }
    forall k | 0 <= k < |events| && SuspendsStep(events[k], step) && events[k].seqNo == n
      ensures exists i :: 0 <= i < |log| && log[i].seqNo == n
    {
      SuspensionsAre(events, step, events[k]);
      assert events[k] in log;
    }
  }

  lemma LogBelow(events: seq<Event>, step: StepId, n: nat)
    ensures var log := Suspensions(events, step);
            (forall i :: 0 <= i < |log| ==> log[i].seqNo <= n)
            <==> forall k :: 0 <= k < |events| && SuspendsStep(events[k], step) ==> events[k].seqNo <= n
  {
    var log := Suspensions(events, step);
    forall i | 0 <= i < |log|
      ensures exists k :: 0 <= k < |events| && SuspendsStep(events[k], step) && events[k].seqNo == log[i].seqNo
    {
      LogHas(events, step, log[i].seqNo);
    }
    forall k | 0 <= k < |events| && SuspendsStep(events[k], step)
      ensures exists i :: 0 <= i < |log| && log[i].seqNo == events[k].seqNo
    {
      LogHas(events, step, events[k].seqNo);
    }
  }

  /** A seq is the latest suspension's exactly when the query finds it and it is the greatest found. */
  lemma LatestByQuery(events: seq<Event>, step: StepId, n: nat)
    ensures var log := Suspensions(events, step);
            LatestSuspension(events, step, n) <==> (exists i :: 0 <= i < |log| && log[i].seqNo == n) && MaxSeq(log) == n
  {
    hide Suspensions, MaxSeq;
    LogHas(events, step, n);
    LogBelow(events, step, n);
    if exists i :: 0 <= i < |Suspensions(events, step)| && Suspensions(events, step)[i].seqNo == n {
      MaxSeqIs(Suspensions(events, step), n);
    }
  }

  /** The structural checks pass exactly on the run's own step, on hold, named by its latest suspension. */
  lemma ChecksExactly(db: Db, run: RunId, step: StepId, suspension: nat)
    requires run in db.runs
    ensures DecisionError(db, run, step, suspension)
            == if step !in db.steps || db.steps[step].run != run then Some(StepRunMismatch)
               else if Answerable(db, run, step, suspension) then None else Some(DecisionRefused)
  {
    hide Suspensions, MaxSeq, LatestSuspension;
    LatestByQuery(db.events, step, suspension);
  }

  /** What a committed call leaves: the hold off, the cycle counted once, one row a pair in order, and
      nothing else moved. */
  ghost predicate Answered(db: Db, after: Db, run: RunId, step: StepId, suspension: nat, pairs: seq<Pair>)
    requires run in db.runs && step in db.steps
  {
    var row, n := db.steps[step], db.runs[run].nextSeq;
    && after.runs == db.runs[run := Run(db.runs[run].state, n + |pairs|)]
    && after.steps == db.steps[step := row.(awaiting := false, cycles := row.cycles + 1)]
    && after.now == db.now
    && |after.events| == |db.events| + |pairs| && after.events[..|db.events|] == db.events
    && forall i :: 0 <= i < |pairs| ==>
         after.events[|db.events| + i] == DecisionRow(run, n + i + 1, step, suspension, row.cycles, pairs[i])
  }

  /** A decision call commits if and only if the step is the run's and on hold, the seq is its latest
      suspension's, the calls it names are distinct, and none has been answered; and then it does all of
      it. A refused call changes nothing. */
  lemma DecideExactly(db: Db, run: RunId, step: StepId, pairs: seq<Pair>, suspension: nat)
    requires run in db.runs
    ensures var (after, reply) := Decide(db, run, step, pairs, suspension);
            && (reply.Committed? <==>
                  && Answerable(db, run, step, suspension)
                  && DistinctCalls(pairs) && AllUnanswered(db.events, run, suspension, pairs))
            && (reply.Committed? ==>
                  reply == Committed(db.runs[run].nextSeq + |pairs|) && Answered(db, after, run, step, suspension, pairs))
            && (!reply.Committed? ==>
                  after == db
                  && reply == Refused(if step !in db.steps || db.steps[step].run != run then StepRunMismatch
                                      else if Answerable(db, run, step, suspension) then UniqueViolation
                                      else DecisionRefused))
  {
    hide DecisionError, InsertDecisions, AllUnanswered, LatestSuspension;
    ChecksExactly(db, run, step, suspension);
    if step in db.steps {
      var cleared := ClearHold(db, step);
      var rows := InsertsExactly(cleared, run, step, suspension, db.steps[step].cycles, pairs);
    }
  }

  // ----- the string call ----------------------------------------------------------------

  /** A call is named, and its decision spells one of the two verdicts. */
  predicate WellFormed(call: Option<string>, decision: Option<string>) {
    && call.Some? && call.value != "" && decision.Some?
    && (Lower(decision.value) == "approval.granted" || Lower(decision.value) == "approval.rejected")
  }

  lemma {:induction false} PairErrorExactly(calls: seq<Option<string>>, decisions: seq<Option<string>>, from: nat)
    requires |calls| == |decisions| && from <= |calls|
    ensures PairError(calls, decisions, from).None? <==> forall i :: from <= i < |calls| ==> WellFormed(calls[i], decisions[i])
    decreases |calls| - from
  {
    if from < |calls| {
      PairErrorExactly(calls, decisions, from + 1);
    }
  }

  /** And the first that is not decides the refusal. */
  lemma {:induction false} FirstMalformed(calls: seq<Option<string>>, decisions: seq<Option<string>>, from: nat) returns (i: nat)
    requires |calls| == |decisions| && from <= |calls| && PairError(calls, decisions, from).Some?
    ensures from <= i < |calls| && !WellFormed(calls[i], decisions[i])
    ensures forall j :: from <= j < i ==> WellFormed(calls[j], decisions[j])
    ensures PairError(calls, decisions, from).value
            == if calls[i] == None || calls[i].value == "" || decisions[i] == None then DecisionRefused
               else BadType(InsufficientPrivilege)
    decreases |calls| - from
  {
    hide Lower;
    i := from;
    if WellFormed(calls[from], decisions[from]) {
      i := FirstMalformed(calls, decisions, from + 1);
    }
  }

  ghost predicate AllWellFormed(calls: seq<Option<string>>, decisions: seq<Option<string>>) {
    calls != [] && |decisions| == |calls| && forall i :: 0 <= i < |calls| ==> WellFormed(calls[i], decisions[i])
  }

  /** What the strings say. */
  ghost function Verdicts(calls: seq<Option<string>>, decisions: seq<Option<string>>): seq<Pair>
    requires AllWellFormed(calls, decisions)
  {
    seq(|calls|, i requires 0 <= i < |calls| => Pair(calls[i].value, Lower(decisions[i].value) == "approval.granted"))
  }

  /** The call with its string arguments: every argument well formed, and the conditions above on what
      they say. */
  lemma DecisionCallExactly(db: Db, run: RunId, step: StepId, calls: seq<Option<string>>, decisions: seq<Option<string>>,
                            suspension: nat)
    requires run in db.runs
    ensures var (after, reply) := AppendApprovalDecision(db, run, step, calls, decisions, suspension);
            if AllWellFormed(calls, decisions) && Answerable(db, run, step, suspension)
               && DistinctCalls(Verdicts(calls, decisions))
               && AllUnanswered(db.events, run, suspension, Verdicts(calls, decisions))
            then reply == Committed(db.runs[run].nextSeq + |calls|)
                 && Answered(db, after, run, step, suspension, Verdicts(calls, decisions))
            else reply.Refused? && after == db
    ensures calls == [] || |decisions| != |calls| ==>
              AppendApprovalDecision(db, run, step, calls, decisions, suspension).1 == Refused(DecisionRefused)
  {
    hide Decide, Answerable, AllUnanswered, Answered, Lower;
    if |decisions| == |calls| {
      PairErrorExactly(calls, decisions, 0);
      if AllWellFormed(calls, decisions) {
        assert PairsOf(calls, decisions) == Verdicts(calls, decisions);
        DecideExactly(db, run, step, Verdicts(calls, decisions), suspension);
      }
    }
  }

  // ----- in every reachable state -------------------------------------------------------

  /** While a step is on hold its latest suspension has no answer, under any key of the run. */
  lemma NobodyAnswered(db: Db, s: StepId, n: nat, call: string)
    requires D.Attributed(db) && OneStepPerRun(db) && s in db.steps && Undecided(db.events, s, n)
    ensures Unanswered(db.events, db.steps[s].run, n, call)
  {
    forall k | 0 <= k < |db.events| && db.events[k].run == db.steps[s].run && DecisionKind(db.events[k].kind)
      ensures db.events[k].key != Some(DecisionKey(n, call))
    {
      assert D.AttributedRow(db, db.events[k]);
      assert !DecisionOn(db.events[k], s, n);
      if db.events[k].key == Some(DecisionKey(n, call)) {
        KeysInjective(db.events[k].writer.suspension, db.events[k].writer.call, n, call);
      }
    }
  }

  /** In every reachable state a held step can be answered: a decision call on it commits if and only if
      it names the latest suspension, which there is, and names no call twice. */
  lemma HeldStepDecides(cfg: Config, actions: seq<Action>, s: StepId, pairs: seq<Pair>, n: nat)
    requires pairs != [] && s in Reach(Initial(cfg), actions).db.steps && Reach(Initial(cfg), actions).db.steps[s].awaiting
    ensures var sys := Reach(Initial(cfg), actions);
            var decide := Api(AppendDecision(sys.db.steps[s].run, s, pairs, n));
            && Enabled(sys, decide) && sys.db.steps[s].run in sys.db.runs
            && (exists m :: LatestSuspension(sys.db.events, s, m))
            && (if LatestSuspension(sys.db.events, s, n) && DistinctCalls(pairs)
                then Answered(sys.db, Act(sys, decide).db, sys.db.steps[s].run, s, n, pairs)
                else Act(sys, decide) == sys)
  {
    hide Reach, Decide, D.Dense, D.EndsOnce, D.KeysUnique, D.StepShape, D.EndedIsTerminal, D.EpochsOrdered, D.StateFollowsLog,
      ClaimsAreEpochs, BodiesMatch, OwnerClaimedLast, OneStepInFlight, Suspensions, Answered, Unanswered;
    var sys := Reach(Initial(cfg), actions);
    ReachableClaims(cfg, actions);
    T.AwaitingStepIsHeld(cfg, actions, s);
    LatestIs(sys.db, s);
    assert LatestSuspension(sys.db.events, s, MaxSeq(Suspensions(sys.db.events, s)));
    var run := sys.db.steps[s].run;
    DecideExactly(sys.db, run, s, pairs, n);
    if LatestSuspension(sys.db.events, s, n) {
      forall i | 0 <= i < |pairs| ensures Unanswered(sys.db.events, run, n, pairs[i].call) {
        NobodyAnswered(sys.db, s, n, pairs[i].call);
      }
    }
  }

  lemma LatestIs(db: Db, s: StepId)
    requires Suspensions(db.events, s) != []
    requires var log := Suspensions(db.events, s); log[|log| - 1].seqNo == MaxSeq(log)
    ensures forall n :: LatestSuspension(db.events, s, n) <==> n == MaxSeq(Suspensions(db.events, s))
  {
    hide Suspensions, MaxSeq, LatestSuspension;
    forall n ensures LatestSuspension(db.events, s, n) <==> n == MaxSeq(Suspensions(db.events, s)) {
      LatestByQuery(db.events, s, n);
    }
  }

  // ----- after the decision -------------------------------------------------------------

  /** A step on hold waits as a runnable one. */
  ghost predicate HeldIsRunnable(db: Db) {
    forall s :: s in db.steps && db.steps[s].awaiting ==> db.steps[s].state == Runnable
  }

  lemma HoldOf(db: Db, op: DbOp, s: StepId)
    requires s in db.steps && op.HoldStep? && op.step == s
    ensures var after := Apply(db, op).0;
            s in after.steps && (after.steps[s] == db.steps[s] || after.steps[s].state.Runnable?)
  {
  }

  lemma HeldIsRunnableKept(sys: Sys, a: Action)
    requires ClaimInv(sys) && A.HoldsAreHeld(sys) && HeldIsRunnable(sys.db)
    ensures HeldIsRunnable(Act(sys, a).db)
  {
    hide Apply, NextBody, BodyOp, D.Inv, OneStepInFlight, OneStepPerRun, OwnerClaimedLast;
    if Enabled(sys, a) {
      var op := OpOf(sys, a);
      forall s | s in Act(sys, a).db.steps && Act(sys, a).db.steps[s].awaiting ensures Act(sys, a).db.steps[s].state == Runnable {
        if s !in sys.db.steps {
          StepsAfter(sys.db, op, s);
          assert false;
        } else {
          RowEffect(sys.db, op, s);
          if sys.db.steps[s].awaiting {
            HeldRowStands(sys, a, s);
          } else {
            HoldOf(sys.db, op, s);
          }
        }
      }
    }
  }

  /** Only a decision changes a row on hold: nobody owns it, and the body that held it has returned. */
  lemma HeldRowStands(sys: Sys, a: Action, s: StepId)
    requires ClaimInv(sys) && A.HoldsAreHeld(sys) && Enabled(sys, a) && s in sys.db.steps && sys.db.steps[s].awaiting
    ensures s in Act(sys, a).db.steps
    ensures Act(sys, a).db.steps[s] == sys.db.steps[s] || !Act(sys, a).db.steps[s].awaiting
  {
    hide Apply, NextBody, BodyOp, OneStepInFlight, OneStepPerRun, OwnerClaimedLast, D.Dense, D.Attributed, D.KeysUnique,
      D.EndsOnce, D.StateFollowsLog, D.EpochsOrdered, D.EndedIsTerminal;
    assert D.RowShape(sys.db.steps[s]);
    HeldChanger(sys.db, OpOf(sys, a), s);
    if a.StepBody? {
      A.BodyOpIsOwn(a.step, a.epoch, sys.bodies[(a.step, a.epoch)], a.choice);
      BodyMatched(sys, s, sys.db.steps[s].epoch);
    }
  }

  lemma HeldChanger(db: Db, op: DbOp, s: StepId)
    requires s in db.steps && db.steps[s].awaiting && db.steps[s].owner.None?
    ensures s in Apply(db, op).0.steps
    ensures Apply(db, op).0.steps[s] != db.steps[s] ==>
              || (op.AppendDecision? && op.step == s && !Apply(db, op).0.steps[s].awaiting)
              || (op.ClaimStep? && op.step == s)
              || (op.Terminate? && op.step == s && db.steps[s].epoch == op.epoch)
  {
    if op.AppendDecision? {
      var rows := DecisionRows(db, op);
    } else if FencedOp(op) {
      FencedRows(db, op);
    } else if op.Lifecycle? || op.Start? {
      var rows := LifecycleRows(db, op);
    }
  }

  lemma {:induction false} ReachableHeld(cfg: Config, actions: seq<Action>)
    ensures HeldIsRunnable(Reach(Initial(cfg), actions).db)
  {
    if actions != [] {
      var before := actions[..|actions| - 1];
      ReachableHeld(cfg, before);
      ReachableClaims(cfg, before);
      A.ReachableApprovals(cfg, before);
      HeldIsRunnableKept(Reach(Initial(cfg), before), actions[|actions| - 1]);
    }
  }

  /** A decision that commits gives the step back: its own pool can claim it in that very instant. */
  lemma DecidedStepIsClaimable(cfg: Config, actions: seq<Action>, s: StepId, pairs: seq<Pair>, n: nat, pool: string)
    requires pairs != [] && s in Reach(Initial(cfg), actions).db.steps && Reach(Initial(cfg), actions).db.steps[s].awaiting
    requires LatestSuspension(Reach(Initial(cfg), actions).db.events, s, n) && DistinctCalls(pairs)
    ensures var sys := Reach(Initial(cfg), actions);
            var after := Act(sys, Api(AppendDecision(sys.db.steps[s].run, s, pairs, n))).db;
            Claimable(after, s, pool) <==> pool == sys.db.steps[s].pool
  {
    hide Reach, Act;
    HeldStepDecides(cfg, actions, s, pairs, n);
    ReachableHeld(cfg, actions);
  }
}
