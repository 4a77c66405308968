// What one transaction can change, seen from one steps row and from the log.
module Effects {
  import opened EventTypes
  import opened Schema
  import opened AppendPaths
  import opened Operations
  import opened DatabaseInvariants

  ghost predicate DecisionRowFor(e: Event, run: RunId, step: StepId, suspension: nat, cycle: nat, pair: Pair) {
    && e.run == run && e.step == Some(step)
    && e.kind == (if pair.granted then ApprovalGranted else ApprovalRejected)
    && e.key == Some(DecisionKey(suspension, pair.call))
    && e.payload == NoPayload && e.writer == ByDecision(suspension, pair.call, cycle)
  }

  /** The insert loop adds one row a pair, in order, and touches no steps row. */
  lemma {:induction false} InsertDecisionsRows(db: Db, run: RunId, step: StepId, suspension: nat, cycle: nat,
                                               pairs: seq<Pair>) returns (rows: seq<Event>)
    ensures var after := InsertDecisions(db, run, step, suspension, cycle, pairs);
            after.Some? ==>
              && after.value.events == db.events + rows && |rows| == |pairs|
              && after.value.steps == db.steps && after.value.runs.Keys == db.runs.Keys
              && (forall i :: 0 <= i < |rows| ==> DecisionRowFor(rows[i], run, step, suspension, cycle, pairs[i]))
  {
    rows := [];
    if pairs != [] {
      var n := |pairs| - 1;
      rows := InsertDecisionsRows(db, run, step, suspension, cycle, pairs[..n]);
      var mid := InsertDecisions(db, run, step, suspension, cycle, pairs[..n]);
      if mid.Some? {
        var after := InsertDecision(mid.value, run, step, suspension, cycle, pairs[n]);
        if after.Some? {
          rows := rows + [after.value.events[|mid.value.events|]];
        }
      }
    }
  }

  /** A transaction whose rows belong to the lease of one step. */
  predicate FencedOp(op: DbOp) {
    op.AppendStep? || op.AppendStarted? || op.AppendPolicy? || op.AppendTerminal?
  }

  function FencedKind(op: DbOp): Kind
    requires FencedOp(op)
  {
    match op
    case AppendStep(_, _, _, kind, _, _) => kind
    case AppendStarted(_, _, _, _) => StepStarted
    case AppendPolicy(_, _, _, _) => PolicyDecision
    case AppendTerminal(_, _, _, completed, _) => if completed then RunCompleted else RunFailed
  }

  function LeaseRow(op: DbOp, n: nat): Event
    requires FencedOp(op)
  {
    Event(op.run, n, FencedKind(op), if op.AppendTerminal? then None else Some(op.step),
          if op.AppendStep? then op.key else None, op.payload, ByLease(op.step, op.epoch))
  }

  /** A fenced transaction that commits adds one row, written under a live lease at that epoch. */
  lemma FencedRows(db: Db, op: DbOp)
    requires FencedOp(op)
    ensures var (after, reply) := Apply(db, op);
            if reply.Committed? then
              && Fence(db, op.step, op.epoch) && db.steps[op.step].run == op.run && op.run in db.runs
              && reply.seqNo == db.runs[op.run].nextSeq + 1
              && after.events == db.events + [LeaseRow(op, reply.seqNo)]
              && after.steps == db.steps && after.runs.Keys == db.runs.Keys && after.now == db.now
            else after == db
  {
  }

  lemma LifecycleRows(db: Db, op: DbOp) returns (rows: seq<Event>)
    requires op.Lifecycle? || op.Start?
    ensures Apply(db, op).0.events == db.events + rows
    ensures forall i :: 0 <= i < |rows| ==>
              (&& rows[i].writer.ByApi? && rows[i].step == None
               && (op.Lifecycle? ==> rows[i].kind == op.kind)
               && (op.Start? ==> rows[i].kind.RunRequested?))
    ensures forall s :: s in db.steps ==> s in Apply(db, op).0.steps && Apply(db, op).0.steps[s] == db.steps[s]
  {
    RequestedAdmitted();
    rows := Apply(db, op).0.events[|db.events|..];
  }

  /** A decision call that commits: the hold was on, the suspension was the step's latest, and the
      call added one row a pair and cleared the hold; a refused one changed nothing. */
  lemma DecisionRows(db: Db, op: DbOp) returns (rows: seq<Event>)
    requires op.AppendDecision?
    ensures var (after, reply) := Apply(db, op);
            if reply.Committed? then
              && op.step in db.steps && db.steps[op.step].run == op.run
              && db.steps[op.step].awaiting
              && Suspensions(db.events, op.step) != []
              && MaxSeq(Suspensions(db.events, op.step)) == op.suspension
              && after.events == db.events + rows && |rows| == |op.pairs|
              && after.steps == ClearHold(db, op.step).steps
              && (forall i :: 0 <= i < |rows| ==>
                    DecisionRowFor(rows[i], op.run, op.step, op.suspension, db.steps[op.step].cycles, op.pairs[i]))
            else after == db
  {
    rows := [];
    if DecisionError(db, op.run, op.step, op.suspension).None? {
      rows := InsertDecisionsRows(ClearHold(db, op.step), op.run, op.step, op.suspension,
                                  db.steps[op.step].cycles, op.pairs);
    }
  }

  /** A transaction that only updates a steps row or the clock adds no event. */
  lemma NoRows(db: Db, op: DbOp)
    requires !FencedOp(op) && !op.Lifecycle? && !op.Start? && !op.AppendDecision?
    ensures Apply(db, op).0.events == db.events
  {
  }

  /** What any transaction does to a given steps row: the epoch moves only by a claim, the cycle
      counter only by a decision on an awaited step, the hold comes on only by the lease's own
      hold update, and an owner appears only by claiming. */
  lemma RowEffect(db: Db, op: DbOp, s: StepId)
    requires s in db.steps
    ensures var (after, reply) := Apply(db, op);
            && s in after.steps
            && after.steps[s].run == db.steps[s].run && after.steps[s].pool == db.steps[s].pool
            && after.steps[s].epoch == db.steps[s].epoch + (if op.ClaimStep? && op.step == s then 1 else 0)
            && (if op.AppendDecision? && op.step == s && reply.Committed?
                then db.steps[s].awaiting && !after.steps[s].awaiting
                     && after.steps[s].cycles == db.steps[s].cycles + 1
                     && after.steps[s].owner == db.steps[s].owner
                else after.steps[s].cycles == db.steps[s].cycles)
            && (after.steps[s].awaiting && !db.steps[s].awaiting ==>
                  op.HoldStep? && op.step == s && Holds(db, op.worker, s, op.epoch) && reply == Rows(1))
            && (db.steps[s].awaiting && !after.steps[s].awaiting ==> op.AppendDecision? && op.step == s && reply.Committed?)
            && (op.ClaimStep? && op.step == s ==> after.steps[s].owner == Some(op.worker))
            && (forall w :: after.steps[s].owner == Some(w) && db.steps[s].owner != Some(w) ==>
                  op.ClaimStep? && op.worker == w && op.step == s)
  {
    if op.AppendDecision? {
      var rows := DecisionRows(db, op);
    }
  }

  /** What a transaction must be to change a row whose hold is off. */
  lemma RowChanger(db: Db, op: DbOp, s: StepId)
    requires s in db.steps && !db.steps[s].awaiting
    ensures s in Apply(db, op).0.steps
    ensures Apply(db, op).0.steps[s] != db.steps[s] ==>
              || (op.ClaimStep? && op.step == s)
              || (op.RenewLease? && op.step == s && db.steps[s].owner == Some(op.worker))
              || (op.ReleaseStep? && op.step == s && db.steps[s].owner == Some(op.worker))
              || (op.HoldStep? && op.step == s && db.steps[s].owner == Some(op.worker) && db.steps[s].epoch == op.epoch)
              || (op.ExpireStep? && op.step == s && db.steps[s].owner == Some(op.worker))
              || (op.Terminate? && op.step == s && db.steps[s].epoch == op.epoch)
  {
    if op.AppendDecision? {
      var rows := DecisionRows(db, op);
    } else if FencedOp(op) {
      FencedRows(db, op);
    } else if op.Lifecycle? || op.Start? {
      var rows := LifecycleRows(db, op);
    }
  }

  /** What any transaction does to a run's state: only a fenced one of the run's own step moves it. */
  lemma RunStateEffect(db: Db, op: DbOp, r: RunId)
    requires r in db.runs
    ensures var after := Apply(db, op).0;
            && r in after.runs
            && (after.runs[r].state != db.runs[r].state ==>
                  FencedOp(op) && op.run == r && Fence(db, op.step, op.epoch) && db.steps[op.step].run == r)
  {
    if op.AppendDecision? && op.step in db.steps {
      StatesStill(ClearHold(db, op.step), op.run, op.step, op.suspension, db.steps[op.step].cycles, op.pairs, r);
    }
  }

  lemma {:induction false} StatesStill(db: Db, run: RunId, step: StepId, suspension: nat, cycle: nat, pairs: seq<Pair>, r: RunId)
    requires r in db.runs
    ensures var after := InsertDecisions(db, run, step, suspension, cycle, pairs);
            after.Some? ==> r in after.value.runs && after.value.runs[r].state == db.runs[r].state
  {
    if pairs != [] {
      StatesStill(db, run, step, suspension, cycle, pairs[..|pairs| - 1], r);
    }
  }

  /** The rows a transaction adds, whatever its kind. */
  ghost predicate OpAdds(db: Db, op: DbOp, rows: seq<Event>) {
    if FencedOp(op) then
      || rows == []
      || (&& Fence(db, op.step, op.epoch) && db.steps[op.step].run == op.run && op.run in db.runs
          && rows == [LeaseRow(op, db.runs[op.run].nextSeq + 1)])
    else if op.AppendDecision? then
      || rows == []
      || (&& op.step in db.steps && db.steps[op.step].run == op.run && db.steps[op.step].awaiting
          && Suspensions(db.events, op.step) != []
          && MaxSeq(Suspensions(db.events, op.step)) == op.suspension
          && |rows| == |op.pairs|
          && forall i :: 0 <= i < |rows| ==>
               DecisionRowFor(rows[i], op.run, op.step, op.suspension, db.steps[op.step].cycles, op.pairs[i]))
    else
      forall i :: 0 <= i < |rows| ==> rows[i].writer.ByApi? && rows[i].step == None
  }

  lemma OpRows(db: Db, op: DbOp) returns (rows: seq<Event>)
    ensures Apply(db, op).0.events == db.events + rows && OpAdds(db, op, rows)
    ensures (FencedOp(op) || op.AppendDecision?) && Apply(db, op).1.Refused? ==> rows == []
    ensures FencedOp(op) && Apply(db, op).1.Committed? ==> rows != []
    ensures op.AppendDecision? && rows != [] ==> Apply(db, op).1.Committed?
  {
    rows := [];
    if FencedOp(op) {
      FencedRows(db, op);
      if Apply(db, op).1.Committed? {
        rows := [LeaseRow(op, db.runs[op.run].nextSeq + 1)];
      }
    } else if op.AppendDecision? {
      rows := DecisionRows(db, op);
      if Apply(db, op).1.Refused? {
        rows := [];
      }
    } else if op.Lifecycle? || op.Start? {
      rows := LifecycleRows(db, op);
    } else {
      NoRows(db, op);
    }
  }
}
