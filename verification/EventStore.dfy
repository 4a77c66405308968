// The three tables as mutable state, and each SQL function and row update as the statements it
// runs in order. Every method is proved to change the tables exactly as its specification in
// AppendPaths does, with a refusal leaving them as they were.
module EventStore {
  import opened EventTypes
  import opened Schema
  import opened AppendPaths

  class Store {
    var runs: map<RunId, Run>
    var steps: map<StepId, Step>
    var events: seq<Event>
    var now: int

    ghost function View(): Db
      reads this
    {
      Db(runs, steps, events, now)
    }

    constructor ()
      ensures View() == EMPTY
    {
      runs, steps, events, now := map[], map[], [], 0;
    }

    // ----- shared statements ------------------------------------------------------------

    method FenceStep(step: StepId, epoch: nat) returns (found: bool)
      ensures found == Fence(View(), step, epoch)
      ensures found ==> forall e :: Fence(View(), step, e) <==> e == epoch
    {
      if step !in steps {
        return false;
      }
      var row := steps[step];
      found := row.epoch == epoch && row.owner.Some? && row.lease.Some? && row.lease.value > now;
    }

    /** UPDATE runs SET next_seq = next_seq + 1 ... RETURNING next_seq. */
    method TakeSeq(run: RunId) returns (n: nat)
      requires run in runs
      modifies this`runs
      ensures n == old(runs[run].nextSeq) + 1
      ensures runs == old(runs)[run := old(runs[run]).(nextSeq := n)]
    {
      n := runs[run].nextSeq + 1;
      runs := runs[run := runs[run].(nextSeq := n)];
    }

    // ----- the append functions ---------------------------------------------------------

    method AppendStepEvent(run: RunId, step: Option<StepId>, epoch: nat, raw: Option<string>,
                           payload: Payload, key: Option<string>)
      returns (reply: Reply)
      modifies this
      ensures (View(), reply) == AppendPaths.AppendStepEvent(old(View()), run, step, epoch, raw, payload, key)
    {
      if raw.None? {
        return Refused(BadType(NullType));
      }
      var canonical := Canonical(raw.value);
      if canonical in NON_STEP {
        return Refused(BadType(InsufficientPrivilege));
      }
      if !Shape(canonical) {
        return Refused(BadType(MalformedType));
      }
      if step.None? {
        return Refused(NullStep);
      }
      reply := AppendFenced(run, step.value, epoch, KindOf(canonical), payload, key);
    }

    method AppendPolicyDecision(run: RunId, step: StepId, epoch: nat, payload: Payload) returns (reply: Reply)
      modifies this
      ensures (View(), reply) == AppendPaths.AppendPolicyDecision(old(View()), run, step, epoch, payload)
      ensures reply.Refused? ==> View() == old(View())
      ensures reply.Committed? <==> Fence(old(View()), step, epoch) && old(steps[step].run) == run && run in old(runs)
      ensures reply.Committed? ==>
                && steps == old(steps) && runs.Keys == old(runs).Keys && runs[run].state == old(runs[run].state)
                && |events| == |old(events)| + 1 && events[|old(events)|].writer == ByLease(step, epoch)
    {
      reply := AppendFenced(run, step, epoch, PolicyDecision, payload, None);
    }

    /** Fence, then membership, then the seq, then the insert. A unique violation on the insert
        rolls the seq back. */
    method AppendFenced(run: RunId, step: StepId, epoch: nat, kind: Kind, payload: Payload, key: Option<string>)
      returns (reply: Reply)
      modifies this
      ensures (View(), reply) == AppendStepKind(old(View()), run, step, epoch, kind, payload, key)
    {
      var live := FenceStep(step, epoch);
      if !live {
        return Refused(Fenced);
      }
      if steps[step].run != run {
        return Refused(StepRunMismatch);
      }
      if run !in runs {
        return Refused(NoSuchRun);
      }
      var before := runs;
      var n := TakeSeq(run);
      if kind.ToolInvoked? && key.Some? && ToolKeyTaken(events, run, key.value) {
        runs := before;
        return Refused(UniqueViolation);
      }
      events := events + [Event(run, n, kind, Some(step), key, payload, ByLease(step, epoch))];
      reply := Committed(n);
    }

    method AppendRunTerminal(run: RunId, step: StepId, epoch: nat, raw: Option<string>, payload: Payload)
      returns (reply: Reply)
      modifies this
      ensures (View(), reply) == AppendPaths.AppendRunTerminal(old(View()), run, step, epoch, raw, payload)
    {
      if raw.None? {
        return Refused(BadType(NullType));
      }
      var name := Lower(raw.value);
      if name !in TERMINAL_APPEND {
        return Refused(BadType(InsufficientPrivilege));
      }
      reply := EndRun(run, step, epoch, name == "run.completed", payload);
    }

    /** Fence, membership, then the state and the seq in one update, then the event. */
    method EndRun(run: RunId, step: StepId, epoch: nat, completed: bool, payload: Payload) returns (reply: Reply)
      modifies this
      ensures (View(), reply) == AppendTerminalKind(old(View()), run, step, epoch, completed, payload)
      ensures reply.Refused? ==> View() == old(View())
      ensures reply.Committed? <==>
                && Fence(old(View()), step, epoch) && old(steps[step].run) == run
                && run in old(runs) && old(runs[run].state).Running?
      ensures reply.Committed? ==>
                && steps == old(steps) && runs.Keys == old(runs).Keys && Terminal(runs[run].state)
                && |events| == |old(events)| + 1 && events[|old(events)|].seqNo == runs[run].nextSeq
    {
      var live := FenceStep(step, epoch);
      if !live {
        return Refused(Fenced);
      }
      if steps[step].run != run {
        return Refused(StepRunMismatch);
      }
      if run !in runs || !runs[run].state.Running? {
        return Refused(RunNotRunning);
      }
      ghost var stated := runs[run := runs[run].(state := if completed then Completed else Failed)];
      runs := runs[run := Run(if completed then Completed else Failed, runs[run].nextSeq + 1)];
      assert runs == stated[run := runs[run]];
      events := events + [Event(run, runs[run].nextSeq, if completed then RunCompleted else RunFailed, None, None,
                                payload, ByLease(step, epoch))];
      reply := Committed(runs[run].nextSeq);
    }

    method AppendRunEvent(run: RunId, raw: Option<string>, payload: Payload) returns (reply: Reply)
      modifies this
      ensures (View(), reply) == AppendPaths.AppendRunEvent(old(View()), run, raw, payload)
    {
      if raw.Some? && Canonical(raw.value) !in RUN_LIFECYCLE {
        return Refused(BadType(InsufficientPrivilege));
      }
      if run !in runs || Terminal(runs[run].state) {
        return Refused(RunAlreadyTerminal);
      }
      var before := runs;
      var n := TakeSeq(run);
      if raw.None? {
        runs := before;
        return Refused(BadType(NotNullViolation));
      }
      events := events + [Event(run, n, KindOf(Canonical(raw.value)), None, None, payload, ByApi)];
      reply := Committed(n);
    }

    /** The run row, its step and run.requested: a failure of any of the three undoes the rest. */
    method StartRun(run: RunId, step: StepId, pool: string, payload: Payload) returns (reply: Reply)
      modifies this
      ensures (View(), reply) == AppendPaths.StartRun(old(View()), run, step, pool, payload)
    {
      if run in runs {
        return Refused(UniqueViolation);
      }
      var before := runs;
      runs := runs[run := Run(Requested, 0)];
      if step in steps {
        runs := before;
        return Refused(UniqueViolation);
      }
      steps := steps[step := Step(run, Runnable, None, 0, None, pool, now, 0, false)];
      reply := AppendRunEvent(run, Some("run.requested"), payload);
    }

    /** The two statements of the step-start transaction. */
    method CommitStepStarted(run: RunId, step: StepId, epoch: nat, payload: Payload) returns (reply: Reply)
      modifies this
      ensures (View(), reply) == AppendPaths.CommitStepStarted(old(View()), run, step, epoch, payload)
    {
      var before := runs;
      if run in runs && runs[run].state.Requested? {
        runs := runs[run := runs[run].(state := Running)];
      }
      reply := AppendFenced(run, step, epoch, StepStarted, payload, None);
      if !reply.Committed? {
        runs := before;
      }
    }

    /** The loop that judges each pair before any lock is taken. */
    method CheckPairs(calls: seq<Option<string>>, decisions: seq<Option<string>>) returns (error: Option<Error>)
      requires |calls| == |decisions|
      ensures error == PairError(calls, decisions, 0)
    {
      for i := 0 to |calls|
        invariant PairError(calls, decisions, 0) == PairError(calls, decisions, i)
      {
        if calls[i].None? || calls[i].value == "" {
          return Some(DecisionRefused);
        }
        if decisions[i].None? {
          return Some(DecisionRefused);
        }
        if Lower(decisions[i].value) !in DECISIONS {
          return Some(BadType(InsufficientPrivilege));
        }
      }
      error := None;
    }

    /** One event a pair, in order; false on the first unique violation or missing run. */
    method InsertPairs(run: RunId, step: StepId, suspension: nat, cycle: nat, calls: seq<Option<string>>,
                       decisions: seq<Option<string>>)
      returns (done: bool)
      requires |calls| == |decisions|
      requires PairError(calls, decisions, 0).None?
      modifies this`runs, this`events
      ensures done ==> InsertDecisions(old(View()), run, step, suspension, cycle, PairsOf(calls, decisions)) == Some(View())
      ensures !done ==> InsertDecisions(old(View()), run, step, suspension, cycle, PairsOf(calls, decisions)) == None
    {
      ghost var pairs := PairsOf(calls, decisions);
      ghost var start := View();
      assert pairs[..0] == [];
      for i := 0 to |calls|
        invariant InsertDecisions(start, run, step, suspension, cycle, pairs[..i]) == Some(View())
        invariant steps == old(steps) && now == old(now)
      {
        PairsWellFormed(calls, decisions, 0, i);
        InsertDecisionsPrefix(start, run, step, suspension, cycle, pairs, i);
        var key := DecisionKey(suspension, calls[i].value);
        if run !in runs {
          InsertDecisionsFails(start, run, step, suspension, cycle, pairs, i + 1);
          return false;
        }
        var before := runs;
        var n := TakeSeq(run);
        if HasKey(events, run, key) {
          runs := before;
          InsertDecisionsFails(start, run, step, suspension, cycle, pairs, i + 1);
          return false;
        }
        var kind := if Lower(decisions[i].value) == "approval.granted" then ApprovalGranted else ApprovalRejected;
        events := events + [Event(run, n, kind, Some(step), Some(key), NoPayload,
                                  ByDecision(suspension, calls[i].value, cycle))];
      }
      assert pairs[..|calls|] == pairs;
      done := true;
    }

    method AppendApprovalDecision(run: RunId, step: StepId, calls: seq<Option<string>>,
                                  decisions: seq<Option<string>>, suspension: nat)
      returns (reply: Reply)
      modifies this
      ensures (View(), reply)
              == AppendPaths.AppendApprovalDecision(old(View()), run, step, calls, decisions, suspension)
    {
      if |calls| == 0 || |decisions| != |calls| {
        return Refused(DecisionRefused);
      }
      var malformed := CheckPairs(calls, decisions);
      if malformed.Some? {
        return Refused(malformed.value);
      }
      reply := DecideLocked(run, step, calls, decisions, suspension);
    }

    /** The structural checks under the steps row's lock, the hold and the counter, then the rows. */
    method DecideLocked(run: RunId, step: StepId, calls: seq<Option<string>>, decisions: seq<Option<string>>,
                        suspension: nat)
      returns (reply: Reply)
      requires |calls| == |decisions| && PairError(calls, decisions, 0).None?
      modifies this
      ensures (View(), reply) == Decide(old(View()), run, step, PairsOf(calls, decisions), suspension)
    {
      hide PairError, InsertDecisions, Suspensions, MaxSeq, PairsOf;
      if step !in steps || steps[step].run != run {
        return Refused(StepRunMismatch);
      }
      var log := Suspensions(events, step);
      if !(exists i :: 0 <= i < |log| && log[i].seqNo == suspension) {
        return Refused(DecisionRefused);
      }
      if MaxSeq(log) != suspension {
        return Refused(DecisionRefused);
      }
      if !steps[step].awaiting {
        return Refused(DecisionRefused);
      }
      var savedRuns, savedSteps, savedEvents := runs, steps, events;
      var cycle := steps[step].cycles;
      steps := steps[step := steps[step].(awaiting := false, cycles := cycle + 1)];
      var done := InsertPairs(run, step, suspension, cycle, calls, decisions);
      if !done {
        runs, steps, events := savedRuns, savedSteps, savedEvents;
        return Refused(if run in runs then UniqueViolation else NoSuchRun);
      }
      reply := Committed(if run in runs then runs[run].nextSeq else 0);
    }

    // ----- updates of the steps row -----------------------------------------------------

    /** claim_one: the oldest claimable row that no other transaction has locked. */
    method ClaimOne(worker: WorkerId, pool: string, ttl: nat, locked: set<StepId>) returns (claim: Option<StepId>)
      modifies this`steps
      ensures claim.None? ==> unchanged(this) && forall s :: Claimable(old(View()), s, pool) ==> s in locked
      ensures claim.Some? ==>
                && Claimable(old(View()), claim.value, pool) && claim.value !in locked
                && (forall s :: Claimable(old(View()), s, pool) && s !in locked
                      ==> old(steps)[claim.value].created <= old(steps)[s].created)
                && View() == ClaimRow(old(View()), worker, claim.value, ttl).0
      ensures claim.Some? ==>
                && OnlyRow(old(steps), steps, claim.value)
                && Holds(View(), worker, claim.value, old(steps[claim.value].epoch) + 1)
                && steps[claim.value].state.Leased? && steps[claim.value].lease == Some(now + ttl)
                && !steps[claim.value].awaiting && (ttl > 0 ==> Fence(View(), claim.value, steps[claim.value].epoch))
    {
      claim := None;
      var left := steps.Keys;
      while left != {}
        invariant left <= steps.Keys && steps == old(steps)
        invariant forall s :: Claimable(View(), s, pool) && s !in locked && s !in left ==>
                    claim.Some? && claim.value in steps && steps[claim.value].created <= steps[s].created
        invariant claim.Some? ==> Claimable(View(), claim.value, pool) && claim.value !in locked
        decreases |left|
      {
        var s :| s in left;
        left := left - {s};
        var row := steps[s];
        if row.pool == pool && !row.awaiting && s !in locked
           && (row.state.Runnable? || (row.state.Leased? && row.lease.Some? && row.lease.value < now))
           && (claim.None? || row.created < steps[claim.value].created)
        {
          claim := Some(s);
        }
      }
      if claim.Some? {
        var row := steps[claim.value];
        steps := steps[claim.value := row.(state := Leased, owner := Some(worker), epoch := row.epoch + 1,
                                           lease := Some(now + ttl))];
      }
    }

    method Renew(worker: WorkerId, step: StepId, epoch: nat, ttl: nat) returns (reply: Reply)
      modifies this`steps
      ensures (View(), reply) == AppendPaths.Renew(old(View()), worker, step, epoch, ttl)
      ensures OnlyRow(old(steps), steps, step)
      ensures reply.RunStateIs? <==> Holds(old(View()), worker, step, epoch) && old(steps[step].run) in runs
      ensures reply.RunStateIs? ==> reply.state == runs[steps[step].run].state && steps[step].lease == Some(now + ttl)
      ensures reply.RunStateIs? ==> Holds(View(), worker, step, epoch) && (ttl > 0 ==> Fence(View(), step, epoch))
      ensures !reply.RunStateIs? ==> reply == Refused(Fenced) && steps == old(steps)
      ensures reply.RunStateIs? ==> steps[step].state == old(steps[step].state) && steps[step].awaiting == old(steps[step].awaiting)
    {
      if step !in steps || steps[step].epoch != epoch || steps[step].owner != Some(worker)
         || steps[step].run !in runs
      {
        return Refused(Fenced);
      }
      steps := steps[step := steps[step].(lease := Some(now + ttl))];
      reply := RunStateIs(runs[steps[step].run].state);
    }

    method Release(worker: WorkerId, step: StepId, epoch: nat, state: StepState) returns (reply: Reply)
      modifies this`steps
      ensures (View(), reply) == AppendPaths.Release(old(View()), worker, step, epoch, state)
      ensures OnlyRow(old(steps), steps, step)
      ensures reply == Rows(if Holds(old(View()), worker, step, epoch) then 1 else 0)
      ensures reply == Rows(0) ==> steps == old(steps)
      ensures reply == Rows(1) ==>
                && steps[step].state == state && steps[step].lease.None? && steps[step].owner == Some(worker)
                && steps[step].epoch == epoch && steps[step].awaiting == old(steps[step].awaiting)
                && forall e :: !Fence(View(), step, e)
      ensures reply == Rows(1) && !state.Runnable? ==> forall pool :: !Claimable(View(), step, pool)
    {
      if step !in steps || steps[step].epoch != epoch || steps[step].owner != Some(worker) {
        return Rows(0);
      }
      steps := steps[step := steps[step].(state := state, lease := None)];
      reply := Rows(1);
    }

    method Hold(worker: WorkerId, step: StepId, epoch: nat) returns (reply: Reply)
      modifies this`steps
      ensures (View(), reply) == AppendPaths.Hold(old(View()), worker, step, epoch)
      ensures OnlyRow(old(steps), steps, step)
      ensures reply == Rows(if Holds(old(View()), worker, step, epoch) then 1 else 0)
      ensures reply == Rows(0) ==> steps == old(steps)
      ensures reply == Rows(1) ==>
                && steps[step].awaiting && steps[step].owner.None? && steps[step].lease.None? && steps[step].state.Runnable?
                && steps[step].epoch == epoch
                && (forall e :: !Fence(View(), step, e)) && (forall pool :: !Claimable(View(), step, pool))
                && (forall w, e :: !Holds(View(), w, step, e))
    {
      if step !in steps || steps[step].epoch != epoch || steps[step].owner != Some(worker) {
        return Rows(0);
      }
      steps := steps[step := steps[step].(state := Runnable, lease := None, owner := None, awaiting := true)];
      reply := Rows(1);
    }

    method ExpireNow(worker: WorkerId, step: StepId) returns (reply: Reply)
      modifies this`steps
      ensures (View(), reply) == AppendPaths.ExpireNow(old(View()), worker, step)
      ensures OnlyRow(old(steps), steps, step)
      ensures reply == Rows(if step in old(steps) && old(steps[step].owner) == Some(worker) then 1 else 0)
      ensures reply == Rows(0) ==> steps == old(steps)
      ensures reply == Rows(1) ==>
                (forall e :: !Fence(View(), step, e)) && steps[step].owner == Some(worker) && steps[step].lease == Some(now)
                && steps[step].awaiting == old(steps[step].awaiting)
                && steps[step].state == old(steps[step].state) && steps[step].epoch == old(steps[step].epoch)
    {
      if step !in steps || steps[step].owner != Some(worker) {
        return Rows(0);
      }
      steps := steps[step := steps[step].(lease := Some(now))];
      reply := Rows(1);
    }

    method TerminateStep(step: StepId, epoch: nat) returns (reply: Reply)
      modifies this`steps
      ensures (View(), reply) == AppendPaths.TerminateStep(old(View()), step, epoch)
      ensures OnlyRow(old(steps), steps, step)
      ensures reply == Rows(if step in old(steps) && old(steps[step].epoch) == epoch then 1 else 0)
      ensures reply == Rows(0) ==> steps == old(steps)
      ensures reply == Rows(1) ==>
                && steps[step].state.Faulted? && steps[step].lease.None? && steps[step].awaiting == old(steps[step].awaiting)
                && steps[step].epoch == epoch && steps[step].owner == old(steps[step].owner)
                && (forall e :: !Fence(View(), step, e)) && (forall pool :: !Claimable(View(), step, pool))
    {
      if step !in steps || steps[step].epoch != epoch {
        return Rows(0);
      }
      steps := steps[step := steps[step].(state := Faulted, lease := None)];
      reply := Rows(1);
    }
  }

  // ----- the loops and their specification ----------------------------------------------

  lemma InsertDecisionsPrefix(db: Db, run: RunId, step: StepId, suspension: nat, cycle: nat, pairs: seq<Pair>, i: nat)
    requires i < |pairs|
    ensures var before := InsertDecisions(db, run, step, suspension, cycle, pairs[..i]);
            before.Some? ==>
              InsertDecisions(db, run, step, suspension, cycle, pairs[..i + 1])
              == InsertDecision(before.value, run, step, suspension, cycle, pairs[i])
  {
    assert pairs[..i + 1][..i] == pairs[..i];
  }

  /** Once a prefix of the pairs is refused, so is the whole call. */
  lemma {:induction false} InsertDecisionsFails(db: Db, run: RunId, step: StepId, suspension: nat, cycle: nat,
                                                pairs: seq<Pair>, i: nat)
    requires i <= |pairs| && InsertDecisions(db, run, step, suspension, cycle, pairs[..i]).None?
    ensures InsertDecisions(db, run, step, suspension, cycle, pairs).None?
    decreases |pairs| - i
  {
    if i == |pairs| {
      assert pairs[..i] == pairs;
    } else {
      assert pairs[..i + 1][..i] == pairs[..i];
      InsertDecisionsFails(db, run, step, suspension, cycle, pairs, i + 1);
    }
  }
}
