// When each append call commits, with which row, and how it is refused otherwise: from the arguments
// and the tables alone.
module Admission {
  import opened EventTypes
  import opened Schema
  import opened AppendPaths

  // ----- names and kinds ----------------------------------------------------------------

  /** A name determines its kind: every kind is that of its own name, and a name of none is kept as it is. */
  lemma KindOfName(k: Kind)
    ensures !k.Other? ==> KindOf(NameOf(k)) == k
    ensures k.Other? && KindOf(k.name).Other? ==> KindOf(k.name) == k
  {
  }

  /** The names the code branches on, as the code spells them. */
  lemma NamedKinds(name: string)
    ensures var k := KindOf(name);
            && NameOf(k) == name
            && (k.StepStarted? <==> name == "step.started") && (k.StepSuspended? <==> name == "step.suspended")
            && (k.StepResumed? <==> name == "step.resumed") && (k.StepCompleted? <==> name == "step.completed")
            && (k.StepFailed? <==> name == "step.failed") && (k.ToolInvoked? <==> name == "tool.invoked")
            && (k.PolicyDecision? <==> name == "policy.decision")
            && (k.ApprovalGranted? <==> name == "approval.granted") && (k.ApprovalRejected? <==> name == "approval.rejected")
            && (k.RunRequested? <==> name == "run.requested") && (k.RunCancelled? <==> name == "run.cancelled")
            && (k.RunCompleted? <==> name == "run.completed") && (k.RunFailed? <==> name == "run.failed")
  {
  }

  // ----- what the calls ask of the tables -----------------------------------------------

  /** The claim at this epoch still has the step: somebody owns it, and its lease ends after the clock. */
  predicate LeaseHolds(db: Db, step: StepId, epoch: nat) {
    && step in db.steps
    && var row := db.steps[step];
       row.epoch == epoch && row.owner != None && row.lease != None && db.now < row.lease.value
  }

  ghost predicate InvokedAlready(events: seq<Event>, run: RunId, key: Option<string>) {
    key.Some? && exists k :: 0 <= k < |events| && events[k].run == run && events[k].kind == ToolInvoked && events[k].key == key
  }

  /** The tables with one row more, numbered next in its run, and the run in this state. */
  ghost predicate OneRow(db: Db, after: Db, run: RunId, state: RunState, kind: Kind, step: Option<StepId>, key: Option<string>,
                         payload: Payload, writer: Writer)
    requires run in db.runs
  {
    var n := db.runs[run].nextSeq + 1;
    && after.runs == db.runs[run := Run(state, n)] && after.steps == db.steps && after.now == db.now
    && after.events == db.events + [Event(run, n, kind, step, key, payload, writer)]
  }

  // ----- the step path ------------------------------------------------------------------

  predicate Reserved(name: string) {
    || name == "policy.decision" || name == "run.requested" || name == "run.cancelled" || name == "run.completed"
    || name == "run.failed" || name == "approval.granted" || name == "approval.rejected"
  }

  lemma ReservedAre(name: string)
    ensures name in NON_STEP <==> Reserved(name)
  {
    NonStepSplits(name);
  }

  /** append_step_event past its type rules: the fence first, then membership, then the run, then the index. */
  lemma KindExactly(db: Db, run: RunId, step: StepId, epoch: nat, kind: Kind, payload: Payload, key: Option<string>)
    ensures var (after, reply) := AppendStepKind(db, run, step, epoch, kind, payload, key);
            if !LeaseHolds(db, step, epoch) then reply == Refused(Fenced) && after == db
            else if db.steps[step].run != run then reply == Refused(StepRunMismatch) && after == db
            else if run !in db.runs then reply == Refused(NoSuchRun) && after == db
            else if kind == ToolInvoked && InvokedAlready(db.events, run, key) then reply == Refused(UniqueViolation) && after == db
            else
              reply == Committed(db.runs[run].nextSeq + 1)
              && OneRow(db, after, run, db.runs[run].state, kind, Some(step), key, payload, ByLease(step, epoch))
  {
  }

  /** The whole call: a missing type, a reserved one, one of the wrong shape and a missing step are refused
      in that order; otherwise the tables decide, and the row's kind is the one the type names. */
  lemma StepCallExactly(db: Db, run: RunId, step: Option<StepId>, epoch: nat, raw: Option<string>, payload: Payload,
                        key: Option<string>)
    ensures var (after, reply) := AppendStepEvent(db, run, step, epoch, raw, payload, key);
            if raw == None then reply == Refused(BadType(NullType)) && after == db
            else if Reserved(Canonical(raw.value)) then reply == Refused(BadType(InsufficientPrivilege)) && after == db
            else if !Shape(Canonical(raw.value)) then reply == Refused(BadType(MalformedType)) && after == db
            else if step == None then reply == Refused(NullStep) && after == db
            else if !LeaseHolds(db, step.value, epoch) then reply == Refused(Fenced) && after == db
            else if db.steps[step.value].run != run then reply == Refused(StepRunMismatch) && after == db
            else if run !in db.runs then reply == Refused(NoSuchRun) && after == db
            else if Canonical(raw.value) == "tool.invoked" && InvokedAlready(db.events, run, key)
            then reply == Refused(UniqueViolation) && after == db
            else
              reply == Committed(db.runs[run].nextSeq + 1)
              && OneRow(db, after, run, db.runs[run].state, KindOf(Canonical(raw.value)), step, key, payload,
                        ByLease(step.value, epoch))
  {
    hide AppendStepKind, OneRow, InvokedAlready, LeaseHolds, KindOf;
    if raw.Some? {
      ReservedAre(Canonical(raw.value));
      NamedKinds(Canonical(raw.value));
      if step.Some? {
        KindExactly(db, run, step.value, epoch, KindOf(Canonical(raw.value)), payload, key);
      }
    }
  }

  /** What the names mean to the rest of the system: a committed step.suspended is the step's next
      suspension and of no other step, a committed step.failed is what a later claim finds, and a
      committed tool.invoked takes its key. */
  lemma NamedRowsAreFound(db: Db, run: RunId, step: StepId, epoch: nat, raw: string, payload: Payload, key: Option<string>, t: StepId)
    requires AppendStepEvent(db, run, Some(step), epoch, Some(raw), payload, key).1.Committed?
    ensures var after := AppendStepEvent(db, run, Some(step), epoch, Some(raw), payload, key).0;
            && |after.events| == |db.events| + 1
            && var row := after.events[|db.events|];
               && NameOf(row.kind) == Canonical(raw)
               && Suspensions(after.events, t)
                  == Suspensions(db.events, t) + (if Canonical(raw) == "step.suspended" && t == step then [row] else [])
               && (HasFailed(after.events, t) <==> HasFailed(db.events, t) || (Canonical(raw) == "step.failed" && t == step))
               && (forall k :: ToolKeyTaken(after.events, run, k)
                     <==> ToolKeyTaken(db.events, run, k) || (Canonical(raw) == "tool.invoked" && key == Some(k)))
  {
    hide Suspensions, KindOf, Canonical, Shape, AppendStepEvent;
    StepCallExactly(db, run, Some(step), epoch, Some(raw), payload, key);
    NamedKinds(Canonical(raw));
    var after := AppendStepEvent(db, run, Some(step), epoch, Some(raw), payload, key).0;
    RowFound(db.events, after.events[|db.events|], run, t);
  }

  lemma RowFound(events: seq<Event>, row: Event, run: RunId, t: StepId)
    ensures Suspensions(events + [row], t)
            == Suspensions(events, t) + (if row.kind == StepSuspended && row.step == Some(t) then [row] else [])
    ensures HasFailed(events + [row], t) <==> HasFailed(events, t) || (row.kind == StepFailed && row.step == Some(t))
    ensures forall k :: ToolKeyTaken(events + [row], run, k)
              <==> ToolKeyTaken(events, run, k) || (row.kind == ToolInvoked && row.run == run && row.key == Some(k))
  {
    hide Suspensions;
    SuspensionsSnoc(events, row, t);
    var after := events + [row];
    assert after[|events|] == row && forall i :: 0 <= i < |events| ==> after[i] == events[i];
    if HasFailed(events, t) {
      var i :| 0 <= i < |events| && events[i].kind.StepFailed? && events[i].step == Some(t);
      assert after[i].kind.StepFailed?;
    }
    forall k | ToolKeyTaken(events, run, k) ensures ToolKeyTaken(after, run, k) {
      var i :| 0 <= i < |events| && events[i].run == run && events[i].kind.ToolInvoked? && events[i].key == Some(k);
      assert after[i].kind.ToolInvoked?;
    }
  }

  /** The reserved append of the decision point. */
  lemma PolicyExactly(db: Db, run: RunId, step: StepId, epoch: nat, payload: Payload)
    ensures var (after, reply) := AppendPolicyDecision(db, run, step, epoch, payload);
            if LeaseHolds(db, step, epoch) && db.steps[step].run == run && run in db.runs
            then reply == Committed(db.runs[run].nextSeq + 1)
                 && OneRow(db, after, run, db.runs[run].state, PolicyDecision, Some(step), None, payload, ByLease(step, epoch))
            else reply.Refused? && after == db
  {
    hide AppendStepKind, OneRow, InvokedAlready, LeaseHolds;
    KindExactly(db, run, step, epoch, PolicyDecision, payload, None);
  }

  /** The step-start transaction: the row, and the run moved if it was only requested. */
  lemma StartedExactly(db: Db, run: RunId, step: StepId, epoch: nat, payload: Payload)
    ensures var (after, reply) := CommitStepStarted(db, run, step, epoch, payload);
            if LeaseHolds(db, step, epoch) && db.steps[step].run == run && run in db.runs
            then reply == Committed(db.runs[run].nextSeq + 1)
                 && OneRow(db, after, run, if db.runs[run].state == Requested then Running else db.runs[run].state,
                           StepStarted, Some(step), None, payload, ByLease(step, epoch))
            else reply.Refused? && after == db
  {
  }

  // ----- the terminal path --------------------------------------------------------------

  /** append_run_terminal: only the two names, case aside and nothing trimmed; the fence, membership, and a
      run that is running; then the state, the seq and the row together. */
  lemma TerminalCallExactly(db: Db, run: RunId, step: StepId, epoch: nat, raw: Option<string>, payload: Payload)
    ensures var (after, reply) := AppendRunTerminal(db, run, step, epoch, raw, payload);
            if raw == None then reply == Refused(BadType(NullType)) && after == db
            else if Lower(raw.value) != "run.completed" && Lower(raw.value) != "run.failed"
            then reply == Refused(BadType(InsufficientPrivilege)) && after == db
            else if !LeaseHolds(db, step, epoch) then reply == Refused(Fenced) && after == db
            else if db.steps[step].run != run then reply == Refused(StepRunMismatch) && after == db
            else if run !in db.runs || db.runs[run].state != Running then reply == Refused(RunNotRunning) && after == db
            else
              var completed := Lower(raw.value) == "run.completed";
              reply == Committed(db.runs[run].nextSeq + 1)
              && OneRow(db, after, run, if completed then Completed else Failed, if completed then RunCompleted else RunFailed,
                        None, None, payload, ByLease(step, epoch))
  {
    hide Lower, OneRow, LeaseHolds, KindOf, AppendTerminalKind;
    if raw.Some? {
      NamedKinds(Lower(raw.value));
      EndingExactly(db, run, step, epoch, Lower(raw.value) == "run.completed", payload);
    }
  }

  lemma EndingExactly(db: Db, run: RunId, step: StepId, epoch: nat, completed: bool, payload: Payload)
    ensures var (after, reply) := AppendTerminalKind(db, run, step, epoch, completed, payload);
            if !LeaseHolds(db, step, epoch) then reply == Refused(Fenced) && after == db
            else if db.steps[step].run != run then reply == Refused(StepRunMismatch) && after == db
            else if run !in db.runs || db.runs[run].state != Running then reply == Refused(RunNotRunning) && after == db
            else
              reply == Committed(db.runs[run].nextSeq + 1)
              && OneRow(db, after, run, if completed then Completed else Failed, if completed then RunCompleted else RunFailed,
                        None, None, payload, ByLease(step, epoch))
  {
  }

  // ----- the lifecycle path -------------------------------------------------------------

  predicate Over(state: RunState) {
    state == Completed || state == Failed || state == Cancelled
  }

  lemma LifecycleExactly(db: Db, run: RunId, kind: Kind, payload: Payload)
    ensures var (after, reply) := AppendLifecycleKind(db, run, kind, payload);
            if run !in db.runs || Over(db.runs[run].state) then reply == Refused(RunAlreadyTerminal) && after == db
            else
              reply == Committed(db.runs[run].nextSeq + 1)
              && OneRow(db, after, run, db.runs[run].state, kind, None, None, payload, ByApi)
  {
  }

  /** append_run_event: a null type meets the guard on the run before the column refuses it. */
  lemma LifecycleCallExactly(db: Db, run: RunId, raw: Option<string>, payload: Payload)
    ensures var (after, reply) := AppendRunEvent(db, run, raw, payload);
            if raw.Some? && Canonical(raw.value) != "run.requested" && Canonical(raw.value) != "run.cancelled"
            then reply == Refused(BadType(InsufficientPrivilege)) && after == db
            else if run !in db.runs || Over(db.runs[run].state) then reply == Refused(RunAlreadyTerminal) && after == db
            else if raw == None then reply == Refused(BadType(NotNullViolation)) && after == db
            else
              var kind := if Canonical(raw.value) == "run.requested" then RunRequested else RunCancelled;
              reply == Committed(db.runs[run].nextSeq + 1)
              && OneRow(db, after, run, db.runs[run].state, kind, None, None, payload, ByApi)
  {
    hide Canonical, OneRow, AppendLifecycleKind, KindOf;
    if raw.Some? {
      NamedKinds(Canonical(raw.value));
      LifecycleExactly(db, run, KindOf(Canonical(raw.value)), payload);
    }
  }

  /** start_run: both ids must be new; then the run is requested, its step can be claimed by its pool at
      once and by no other, and run.requested is the run's first row. */
  lemma StartExactly(db: Db, run: RunId, step: StepId, pool: string, payload: Payload)
    ensures var (after, reply) := StartRun(db, run, step, pool, payload);
            if run in db.runs || step in db.steps then reply == Refused(UniqueViolation) && after == db
            else
              && reply == Committed(1)
              && after.runs == db.runs[run := Run(Requested, 1)]
              && after.steps.Keys == db.steps.Keys + {step} && (forall s :: s in db.steps ==> after.steps[s] == db.steps[s])
              && after.steps[step].run == run && after.steps[step].created == db.now && after.steps[step].epoch == 0
              && after.steps[step].cycles == 0 && !after.steps[step].awaiting
              && (forall p :: Claimable(after, step, p) <==> p == pool)
              && after.events == db.events + [Event(run, 1, RunRequested, None, None, payload, ByApi)]
              && after.now == db.now
  {
    hide AppendRunEvent, Canonical;
    var seeded := db.(runs := db.runs[run := Run(Requested, 0)],
                      steps := db.steps[step := Step(run, Runnable, None, 0, None, pool, db.now, 0, false)]);
    RunNamesHaveShape();
    ShapeIsFixed("run.requested");
    LifecycleCallExactly(seeded, run, Some("run.requested"), payload);
    assert db.runs[run := Run(Requested, 0)][run := Run(Requested, 1)] == db.runs[run := Run(Requested, 1)];
  }
}
