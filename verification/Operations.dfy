// One transaction against the tables, whoever issues it.
module Operations {
  import opened EventTypes
  import opened Schema
  import opened AppendPaths

  datatype DbOp =
    | Nothing
    | Tick(seconds: nat)
    | Start(run: RunId, step: StepId, pool: string, payload: Payload)
    | Lifecycle(run: RunId, kind: Kind, payload: Payload)
    | AppendStep(run: RunId, step: StepId, epoch: nat, kind: Kind, payload: Payload, key: Option<string>)
    | AppendStarted(run: RunId, step: StepId, epoch: nat, payload: Payload)
    | AppendPolicy(run: RunId, step: StepId, epoch: nat, payload: Payload)
    | AppendTerminal(run: RunId, step: StepId, epoch: nat, completed: bool, payload: Payload)
    | AppendDecision(run: RunId, step: StepId, pairs: seq<Pair>, suspension: nat)
    | ClaimStep(worker: WorkerId, step: StepId, ttl: nat)
    | RenewLease(worker: WorkerId, step: StepId, epoch: nat, ttl: nat)
    | ReleaseStep(worker: WorkerId, step: StepId, epoch: nat, state: StepState)
    | HoldStep(worker: WorkerId, step: StepId, epoch: nat)
    | ExpireStep(worker: WorkerId, step: StepId)
    | Terminate(step: StepId, epoch: nat)

  function Apply(db: Db, op: DbOp): (Db, Reply) {
    match op
    case Nothing => (db, Rows(0))
    case Tick(seconds) => (db.(now := db.now + seconds), Rows(0))
    case Start(run, step, pool, payload) => StartRun(db, run, step, pool, payload)
    case Lifecycle(run, kind, payload) => AppendLifecycleKind(db, run, kind, payload)
    case AppendStep(run, step, epoch, kind, payload, key) => AppendStepKind(db, run, step, epoch, kind, payload, key)
    case AppendStarted(run, step, epoch, payload) => CommitStepStarted(db, run, step, epoch, payload)
    case AppendPolicy(run, step, epoch, payload) => AppendPolicyDecision(db, run, step, epoch, payload)
    case AppendTerminal(run, step, epoch, completed, payload) =>
      AppendTerminalKind(db, run, step, epoch, completed, payload)
    case AppendDecision(run, step, pairs, suspension) => Decide(db, run, step, pairs, suspension)
    case ClaimStep(worker, step, ttl) => ClaimRow(db, worker, step, ttl)
    case RenewLease(worker, step, epoch, ttl) => Renew(db, worker, step, epoch, ttl)
    case ReleaseStep(worker, step, epoch, state) => Release(db, worker, step, epoch, state)
    case HoldStep(worker, step, epoch) => Hold(db, worker, step, epoch)
    case ExpireStep(worker, step) => ExpireNow(db, worker, step)
    case Terminate(step, epoch) => TerminateStep(db, step, epoch)
  }

  /** What the append functions' type rules and the call sites guarantee of an operation: the
      kind is one its path admits, step.started comes only from the transaction that also moves
      the run, a claim is made on a claimable row, and a release names a finished state. */
  predicate Issued(db: Db, op: DbOp) {
    match op
    case Lifecycle(_, kind, _) => kind.RunRequested? || kind.RunCancelled?
    case AppendStep(_, _, _, kind, _, _) => StepKind(kind) && !kind.StepStarted?
    case AppendDecision(_, _, pairs, _) => pairs != []
    case ClaimStep(_, step, _) => step in db.steps && Claimable(db, step, db.steps[step].pool)
    case ReleaseStep(_, _, _, state) => state.Finished? || state.Faulted?
    case _ => true
  }

  /** The tables after a sequence of transactions. */
  function Execute(db: Db, ops: seq<DbOp>): Db {
    if ops == [] then db else Apply(Execute(db, ops[..|ops| - 1]), ops[|ops| - 1]).0
  }

  /** Every transaction of the sequence is one its caller could issue when it ran. */
  predicate AllIssued(db: Db, ops: seq<DbOp>) {
    ops == []
    || (AllIssued(db, ops[..|ops| - 1]) && Issued(Execute(db, ops[..|ops| - 1]), ops[|ops| - 1]))
  }
}
