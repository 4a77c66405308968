// What each SQL function and each direct row update does to the tables, as a function from
// the tables before to the tables after and the reply. A refused call is a rolled back one:
// it returns the tables it was given.
module AppendPaths {
  import opened EventTypes
  import opened Schema

  datatype Error =
    | BadType(error: TypeError) | NullStep | Fenced | StepRunMismatch | NoSuchRun
    | RunNotRunning | RunAlreadyTerminal | DecisionRefused | UniqueViolation

  datatype Reply =
    | Committed(seqNo: nat)
    | Refused(error: Error)
    | Rows(count: nat)
    | RunStateIs(state: RunState)

  // ----- the fence and the shared insert ------------------------------------------------

  /** fence_step: possession of a live lease at the named epoch. */
  predicate Fence(db: Db, step: StepId, epoch: nat) {
    && step in db.steps
    && db.steps[step].epoch == epoch
    && db.steps[step].owner.Some?
    && db.steps[step].lease.Some? && db.steps[step].lease.value > db.now
  }

  /** UPDATE runs SET next_seq = next_seq + 1 RETURNING next_seq, then INSERT INTO events. */
  function Insert(db: Db, run: RunId, kind: Kind, step: Option<StepId>, key: Option<string>,
                  payload: Payload, writer: Writer): Db
    requires run in db.runs
  {
    var n := db.runs[run].nextSeq + 1;
    db.(runs := db.runs[run := db.runs[run].(nextSeq := n)],
        events := db.events + [Event(run, n, kind, step, key, payload, writer)])
  }

  // ----- the fenced paths ---------------------------------------------------------------

  function AppendStepEvent(db: Db, run: RunId, step: Option<StepId>, epoch: nat, raw: Option<string>,
                           payload: Payload, key: Option<string>): (Db, Reply)
  {
    match TypeGate(StepPath, raw)
    case Refuse(error) => (db, Refused(BadType(error)))
    case Admit(stored) =>
      if step.None? then (db, Refused(NullStep))
      else AppendStepKind(db, run, step.value, epoch, KindOf(stored), payload, key)
  }

  /** append_step_event past its type rules. */
  function AppendStepKind(db: Db, run: RunId, step: StepId, epoch: nat, kind: Kind,
                          payload: Payload, key: Option<string>): (Db, Reply)
  {
    if !Fence(db, step, epoch) then (db, Refused(Fenced))
    else if db.steps[step].run != run then (db, Refused(StepRunMismatch))
    else if run !in db.runs then (db, Refused(NoSuchRun))
    else if kind.ToolInvoked? && key.Some? && ToolKeyTaken(db.events, run, key.value) then
      (db, Refused(UniqueViolation))
    else
      (Insert(db, run, kind, Some(step), key, payload, ByLease(step, epoch)),
       Committed(db.runs[run].nextSeq + 1))
  }

  function AppendPolicyDecision(db: Db, run: RunId, step: StepId, epoch: nat, payload: Payload): (Db, Reply)
  {
    AppendStepKind(db, run, step, epoch, PolicyDecision, payload, None)
  }

  function AppendRunTerminal(db: Db, run: RunId, step: StepId, epoch: nat, raw: Option<string>,
                             payload: Payload): (Db, Reply)
  {
    match TypeGate(TerminalPath, raw)
    case Refuse(error) => (db, Refused(BadType(error)))
    case Admit(stored) => AppendTerminalKind(db, run, step, epoch, KindOf(stored).RunCompleted?, payload)
  }

  /** append_run_terminal past its type rules. The event's step_id is null. */
  function AppendTerminalKind(db: Db, run: RunId, step: StepId, epoch: nat, completed: bool,
                              payload: Payload): (Db, Reply)
  {
    if !Fence(db, step, epoch) then (db, Refused(Fenced))
    else if db.steps[step].run != run then (db, Refused(StepRunMismatch))
    else if run !in db.runs || !db.runs[run].state.Running? then (db, Refused(RunNotRunning))
    else
      var moved := SetRunState(db, run, if completed then Completed else Failed);
      (Insert(moved, run, if completed then RunCompleted else RunFailed, None, None, payload,
              ByLease(step, epoch)),
       Committed(db.runs[run].nextSeq + 1))
  }

  function SetRunState(db: Db, run: RunId, state: RunState): Db
    requires run in db.runs
  {
    db.(runs := db.runs[run := db.runs[run].(state := state)])
  }

  /** One transaction: requested becomes running, then step.started through the fenced path. */
  function CommitStepStarted(db: Db, run: RunId, step: StepId, epoch: nat, payload: Payload): (Db, Reply)
  {
    var moved := if run in db.runs && db.runs[run].state.Requested? then SetRunState(db, run, Running) else db;
    var (after, reply) := AppendStepKind(moved, run, step, epoch, StepStarted, payload, None);
    if reply.Committed? then (after, reply) else (db, reply)
  }

  // ----- the run-lifecycle path ---------------------------------------------------------

  function AppendRunEvent(db: Db, run: RunId, raw: Option<string>, payload: Payload): (Db, Reply)
  {
    // A null type passes the allowlist test and meets the terminal guard before the column.
    if raw.None? then
      (db, Refused(if run in db.runs && !Terminal(db.runs[run].state)
                   then BadType(NotNullViolation) else RunAlreadyTerminal))
    else match TypeGate(LifecyclePath, raw)
      case Refuse(error) => (db, Refused(BadType(error)))
      case Admit(stored) => AppendLifecycleKind(db, run, KindOf(stored), payload)
  }

  function AppendLifecycleKind(db: Db, run: RunId, kind: Kind, payload: Payload): (Db, Reply)
  {
    if run !in db.runs || Terminal(db.runs[run].state) then (db, Refused(RunAlreadyTerminal))
    else (Insert(db, run, kind, None, None, payload, ByApi), Committed(db.runs[run].nextSeq + 1))
  }

  /** start_run: the run, its coordinator step and run.requested, or none of them. */
  function StartRun(db: Db, run: RunId, step: StepId, pool: string, payload: Payload): (Db, Reply)
  {
    if run in db.runs || step in db.steps then (db, Refused(UniqueViolation))
    else
      var seeded := db.(runs := db.runs[run := Run(Requested, 0)],
                        steps := db.steps[step := Step(run, Runnable, None, 0, None, pool, db.now, 0, false)]);
      AppendRunEvent(seeded, run, Some("run.requested"), payload)
  }

  // ----- the approval-decision path -----------------------------------------------------

  /** The first malformed pair decides the refusal; no lock is held yet. */
  function PairError(calls: seq<Option<string>>, decisions: seq<Option<string>>, i: nat): Option<Error>
    requires |calls| == |decisions| && i <= |calls|
    decreases |calls| - i
  {
    if i == |calls| then None
    else if calls[i].None? || calls[i].value == "" then Some(DecisionRefused)
    else
      match TypeGate(DecisionPath, decisions[i])
      case Refuse(NullDecision) => Some(DecisionRefused)
      case Refuse(error) => Some(BadType(error))
      case Admit(_) => PairError(calls, decisions, i + 1)
  }

  /** Pairs that pass the check are all present and all decisions. */
  lemma {:induction false} PairsWellFormed(calls: seq<Option<string>>, decisions: seq<Option<string>>, from: nat, i: nat)
    requires |calls| == |decisions| && from <= i < |calls|
    requires PairError(calls, decisions, from).None?
    ensures calls[i].Some? && calls[i].value != "" && decisions[i].Some? && Lower(decisions[i].value) in DECISIONS
    decreases i - from
  {
    if from < i {
      PairsWellFormed(calls, decisions, from + 1, i);
    }
  }

  /** The structural predicates that stand in for the fence on this path. */
  function DecisionError(db: Db, run: RunId, step: StepId, suspension: nat): Option<Error>
  {
    if step !in db.steps || db.steps[step].run != run then Some(StepRunMismatch)
    else
      var log := Suspensions(db.events, step);
      if !(exists i :: 0 <= i < |log| && log[i].seqNo == suspension) then Some(DecisionRefused)
      else if MaxSeq(log) != suspension then Some(DecisionRefused)
      else if !db.steps[step].awaiting then Some(DecisionRefused)
      else None
  }

  /** Clear the hold and count the cycle, once for the call. */
  function ClearHold(db: Db, step: StepId): Db
    requires step in db.steps
  {
    db.(steps := db.steps[step := db.steps[step].(awaiting := false, cycles := db.steps[step].cycles + 1)])
  }

  datatype Pair = Pair(call: string, granted: bool)

  function PairsOf(calls: seq<Option<string>>, decisions: seq<Option<string>>): (pairs: seq<Pair>)
    requires |calls| == |decisions|
    ensures |pairs| == |calls|
    ensures forall i :: 0 <= i < |pairs| && calls[i].Some? && decisions[i].Some?
              ==> pairs[i] == Pair(calls[i].value, Lower(decisions[i].value) == "approval.granted")
  {
    seq(|calls|, i requires 0 <= i < |calls| =>
      Pair(if calls[i].Some? then calls[i].value else "",
           decisions[i].Some? && Lower(decisions[i].value) == "approval.granted"))
  }

  /** One decision row, or None where the partial unique index refuses it. */
  function InsertDecision(db: Db, run: RunId, step: StepId, suspension: nat, cycle: nat, pair: Pair): Option<Db>
  {
    if run !in db.runs || HasKey(db.events, run, DecisionKey(suspension, pair.call)) then None
    else Some(Insert(db, run, if pair.granted then ApprovalGranted else ApprovalRejected, Some(step),
                     Some(DecisionKey(suspension, pair.call)), NoPayload,
                     ByDecision(suspension, pair.call, cycle)))
  }

  /** The insert loop over the pairs; None rolls the whole call back. */
  function InsertDecisions(db: Db, run: RunId, step: StepId, suspension: nat, cycle: nat,
                           pairs: seq<Pair>): Option<Db>
  {
    if pairs == [] then Some(db)
    else
      match InsertDecisions(db, run, step, suspension, cycle, pairs[..|pairs| - 1])
      case None => None
      case Some(mid) => InsertDecision(mid, run, step, suspension, cycle, pairs[|pairs| - 1])
  }

  function AppendApprovalDecision(db: Db, run: RunId, step: StepId, calls: seq<Option<string>>,
                                  decisions: seq<Option<string>>, suspension: nat): (Db, Reply)
  {
    if calls == [] || |decisions| != |calls| then (db, Refused(DecisionRefused))
    else
      match PairError(calls, decisions, 0)
      case Some(error) => (db, Refused(error))
      case None => Decide(db, run, step, PairsOf(calls, decisions), suspension)
  }

  /** append_approval_decision past its argument checks. */
  function Decide(db: Db, run: RunId, step: StepId, pairs: seq<Pair>, suspension: nat): (Db, Reply)
  {
    match DecisionError(db, run, step, suspension)
    case Some(error) => (db, Refused(error))
    case None =>
      match InsertDecisions(ClearHold(db, step), run, step, suspension, db.steps[step].cycles, pairs)
      case None => (db, Refused(if run in db.runs then UniqueViolation else NoSuchRun))
      case Some(after) =>
        (after, Committed(if run in after.runs then after.runs[run].nextSeq else 0))
  }

  // ----- direct updates of the steps row ------------------------------------------------

  function WithStep(db: Db, step: StepId, row: Step): Db {
    db.(steps := db.steps[step := row])
  }

  /** Only this row may have changed, and neither its run nor its pool nor when it was made. */
  predicate OnlyRow(before: map<StepId, Step>, after: map<StepId, Step>, step: StepId) {
    && after.Keys == before.Keys
    && (forall s :: s in before && s != step ==> after[s] == before[s])
    && (step in before ==>
          && after[step].run == before[step].run && after[step].pool == before[step].pool
          && after[step].created == before[step].created && after[step].cycles == before[step].cycles)
  }

  /** claim_one's predicate. A null lease compares as null, so it is not expired. */
  predicate Claimable(db: Db, step: StepId, pool: string) {
    && step in db.steps
    && var s := db.steps[step];
    && s.pool == pool
    && (s.state.Runnable? || (s.state.Leased? && s.lease.Some? && s.lease.value < db.now))
    && !s.awaiting
  }

  function ClaimRow(db: Db, worker: WorkerId, step: StepId, ttl: nat): (Db, Reply)
  {
    if step !in db.steps then (db, Rows(0))
    else
      (WithStep(db, step, db.steps[step].(state := Leased, owner := Some(worker),
                                          epoch := db.steps[step].epoch + 1,
                                          lease := Some(db.now + ttl))),
       Rows(1))
  }

  predicate Holds(db: Db, worker: WorkerId, step: StepId, epoch: nat) {
    step in db.steps && db.steps[step].epoch == epoch && db.steps[step].owner == Some(worker)
  }

  function Renew(db: Db, worker: WorkerId, step: StepId, epoch: nat, ttl: nat): (Db, Reply)
  {
    if !Holds(db, worker, step, epoch) || db.steps[step].run !in db.runs then (db, Refused(Fenced))
    else (WithStep(db, step, db.steps[step].(lease := Some(db.now + ttl))),
          RunStateIs(db.runs[db.steps[step].run].state))
  }

  function Release(db: Db, worker: WorkerId, step: StepId, epoch: nat, state: StepState): (Db, Reply)
  {
    if !Holds(db, worker, step, epoch) then (db, Rows(0))
    else (WithStep(db, step, db.steps[step].(state := state, lease := None)), Rows(1))
  }

  /** The body's own release at a suspension: unowned, runnable, awaiting a decision. */
  function Hold(db: Db, worker: WorkerId, step: StepId, epoch: nat): (Db, Reply)
  {
    if !Holds(db, worker, step, epoch) then (db, Rows(0))
    else (WithStep(db, step, db.steps[step].(state := Runnable, lease := None, owner := None, awaiting := true)),
          Rows(1))
  }

  /** _expire_now: fenced on the owner alone. */
  function ExpireNow(db: Db, worker: WorkerId, step: StepId): (Db, Reply)
  {
    if step !in db.steps || db.steps[step].owner != Some(worker) then (db, Rows(0))
    else (WithStep(db, step, db.steps[step].(lease := Some(db.now))), Rows(1))
  }

  /** terminate_step: fenced on the epoch alone. */
  function TerminateStep(db: Db, step: StepId, epoch: nat): (Db, Reply)
  {
    if step !in db.steps || db.steps[step].epoch != epoch then (db, Rows(0))
    else (WithStep(db, step, db.steps[step].(state := Faulted, lease := None)), Rows(1))
  }
}
