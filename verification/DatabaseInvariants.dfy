// What every sequence of transactions keeps, whoever issues them and with whatever arguments.
module DatabaseInvariants {
  import opened EventTypes
  import opened Schema
  import opened AppendPaths
  import opened Operations
  import opened RunStates

  // ----- the invariants -----------------------------------------------------------------

  /** The foreign keys. */
  ghost predicate Referential(db: Db) {
    && (forall s :: s in db.steps ==> db.steps[s].run in db.runs)
    && (forall i :: 0 <= i < |db.events| ==> db.events[i].run in db.runs)
  }

  /** A run's rows, in commit order, carry seq 1, 2, ..., next_seq: no hole and no repeat. */
  ghost predicate Dense(db: Db) {
    forall r :: r in db.runs ==> DenseLog(RunLog(db.events, r), db.runs[r].nextSeq)
  }

  ghost predicate DenseLog(log: seq<Event>, n: nat) {
    |log| == n && forall i :: 0 <= i < |log| ==> log[i].seqNo == i + 1
  }

  /** A row was written by a transaction entitled to it: a lease of a step of that very run, at an
      epoch already granted; a decision call on a step of that run, keyed as it says; or the api. */
  ghost predicate AttributedRow(db: Db, e: Event) {
    match e.writer
    case ByLease(s, epoch) =>
      && s in db.steps && db.steps[s].run == e.run && 1 <= epoch <= db.steps[s].epoch
      && (if e.kind.RunCompleted? || e.kind.RunFailed? then e.step == None
          else e.step == Some(s) && (StepKind(e.kind) || e.kind.PolicyDecision?))
    case ByDecision(suspension, call, cycle) =>
      && e.step.Some? && e.step.value in db.steps && db.steps[e.step.value].run == e.run
      && DecisionKind(e.kind) && e.key == Some(DecisionKey(suspension, call))
      && cycle < db.steps[e.step.value].cycles
    case ByApi => (e.kind.RunRequested? || e.kind.RunCancelled?) && e.step == None
  }

  ghost predicate Attributed(db: Db) {
    forall i :: 0 <= i < |db.events| ==> AttributedRow(db, db.events[i])
  }

  /** For each step the writing epochs never decrease along the log. */
  ghost predicate EpochsOrdered(events: seq<Event>) {
    forall i, j :: 0 <= i < j < |events| && events[i].writer.ByLease? && events[j].writer.ByLease?
      && events[i].writer.step == events[j].writer.step
      ==> events[i].writer.epoch <= events[j].writer.epoch
  }

  /** runs.state is the last state of the projection of the run's log. */
  ghost predicate StateFollowsLog(db: Db) {
    forall r :: r in db.runs ==> db.runs[r].state == FinalState(RunLog(db.events, r))
  }

  predicate Ending(k: Kind) {
    k.RunCompleted? || k.RunFailed?
  }

  predicate LifecycleKind(k: Kind) {
    k.RunRequested? || k.RunCancelled?
  }

  /** After run.completed or run.failed neither another ending nor a lifecycle event commits. */
  ghost predicate EndsOnce(events: seq<Event>) {
    forall i, j :: 0 <= i < j < |events| && events[i].run == events[j].run && Ending(events[i].kind)
      ==> !Ending(events[j].kind) && !LifecycleKind(events[j].kind)
  }

  /** A run whose log holds an ending is in a terminal state. */
  ghost predicate EndedIsTerminal(db: Db) {
    forall i :: 0 <= i < |db.events| && Ending(db.events[i].kind) ==>
      db.events[i].run in db.runs && Terminal(db.runs[db.events[i].run].state)
  }

  /** The partial unique indexes: a decision key, or a tool.invoked key, occurs once in a run. */
  ghost predicate KeysUnique(events: seq<Event>) {
    forall i, j :: 0 <= i < j < |events| && events[i].run == events[j].run && events[i].key.Some?
      && ((DecisionKind(events[i].kind) && DecisionKind(events[j].kind))
          || (events[i].kind.ToolInvoked? && events[j].kind.ToolInvoked?))
      ==> events[i].key != events[j].key
  }

  ghost predicate RowShape(row: Step) {
    && (row.state.Runnable? ==> row.owner.None?)
    && (row.awaiting ==> row.owner.None? && row.lease.None?)
    && (row.owner.Some? ==> row.epoch >= 1)
  }

  ghost predicate StepShape(db: Db) {
    forall s :: s in db.steps ==> RowShape(db.steps[s])
  }

  ghost predicate Inv(db: Db) {
    && Referential(db) && Dense(db) && Attributed(db) && EpochsOrdered(db.events)
    && StateFollowsLog(db) && EndsOnce(db.events) && EndedIsTerminal(db) && StepShape(db) && KeysUnique(db.events)
  }

  // ----- one row appended ---------------------------------------------------------------

  ghost predicate Appended(db: Db, db': Db, e: Event) {
    && e.run in db.runs && e.seqNo == db.runs[e.run].nextSeq + 1
    && db' == db.(runs := db.runs[e.run := Run(After(db.runs[e.run].state, e.kind), e.seqNo)],
                  events := db.events + [e])
  }

  /** What an append needs of its row beyond the next number. */
  ghost predicate Admissible(db: Db, e: Event) {
    && AttributedRow(db, e)
    && (e.writer.ByLease? ==> e.writer.epoch == db.steps[e.writer.step].epoch)
    && (e.run in db.runs && Ending(e.kind) ==> db.runs[e.run].state.Running?)
    && (e.run in db.runs && LifecycleKind(e.kind) ==> !Terminal(db.runs[e.run].state))
    && (DecisionKind(e.kind) && e.key.Some? ==> !HasKey(db.events, e.run, e.key.value))
    && (e.kind.ToolInvoked? && e.key.Some? ==> !ToolKeyTaken(db.events, e.run, e.key.value))
  }

  lemma AppendKeepsDense(db: Db, db': Db, e: Event)
    requires Dense(db) && Appended(db, db', e)
    ensures Dense(db')
  {
    forall r | r in db'.runs ensures DenseLog(RunLog(db'.events, r), db'.runs[r].nextSeq) {
      RunLogSnoc(db.events, e, r);
    }
  }

  lemma AppendKeepsState(db: Db, db': Db, e: Event)
    requires StateFollowsLog(db) && Appended(db, db', e)
    ensures StateFollowsLog(db')
  {
    forall r | r in db'.runs ensures db'.runs[r].state == FinalState(RunLog(db'.events, r)) {
      RunLogSnoc(db.events, e, r);
      FinalStateSnoc(RunLog(db.events, r), e);
    }
  }

  lemma AppendKeepsAttribution(db: Db, db': Db, e: Event)
    requires Attributed(db) && EpochsOrdered(db.events) && Appended(db, db', e) && Admissible(db, e)
    ensures Attributed(db') && EpochsOrdered(db'.events)
  {
    forall i | 0 <= i < |db'.events| ensures AttributedRow(db', db'.events[i]) {
      assert i < |db.events| ==> AttributedRow(db, db.events[i]);
    }
    forall i | 0 <= i < |db.events| && db.events[i].writer.ByLease? && e.writer.ByLease?
               && db.events[i].writer.step == e.writer.step
      ensures db.events[i].writer.epoch <= e.writer.epoch
    {
      assert AttributedRow(db, db.events[i]);
    }
  }

  lemma AppendKeepsEndings(db: Db, db': Db, e: Event)
    requires EndsOnce(db.events) && EndedIsTerminal(db) && Appended(db, db', e) && Admissible(db, e)
    ensures EndsOnce(db'.events) && EndedIsTerminal(db')
  {
  }

  lemma AppendKeepsKeys(db: Db, db': Db, e: Event)
    requires KeysUnique(db.events) && Appended(db, db', e) && Admissible(db, e)
    ensures KeysUnique(db'.events)
  {
    hide AttributedRow;
  }

  lemma AppendKeepsShape(db: Db, db': Db, e: Event)
    requires Referential(db) && StepShape(db) && Appended(db, db', e)
    ensures Referential(db') && StepShape(db')
  {
  }

  lemma AppendKeeps(db: Db, db': Db, e: Event)
    requires Inv(db) && Appended(db, db', e) && Admissible(db, e)
    ensures Inv(db')
  {
    hide Referential, Dense, Attributed, EpochsOrdered, StateFollowsLog, EndsOnce, EndedIsTerminal, StepShape, KeysUnique,
      Appended, Admissible;
    AppendKeepsShape(db, db', e);
    AppendKeepsKeys(db, db', e);
    AppendKeepsDense(db, db', e);
    AppendKeepsState(db, db', e);
    AppendKeepsAttribution(db, db', e);
    AppendKeepsEndings(db, db', e);
  }

  // ----- one steps row updated ----------------------------------------------------------

  lemma RowUpdateKeepsAttribution(db: Db, s: StepId, row: Step)
    requires Attributed(db) && s in db.steps
    requires row.run == db.steps[s].run && row.epoch >= db.steps[s].epoch && row.cycles >= db.steps[s].cycles
    ensures Attributed(WithStep(db, s, row))
  {
    var db' := WithStep(db, s, row);
    forall i | 0 <= i < |db'.events| ensures AttributedRow(db', db'.events[i]) {
      assert AttributedRow(db, db.events[i]);
    }
  }

  lemma RowUpdateKeeps(db: Db, s: StepId, row: Step)
    requires Inv(db) && s in db.steps && RowShape(row)
    requires row.run == db.steps[s].run && row.epoch >= db.steps[s].epoch && row.cycles >= db.steps[s].cycles
    ensures Inv(WithStep(db, s, row))
  {
    hide Attributed, AttributedRow, EpochsOrdered, DenseLog, EndsOnce, KeysUnique;
    RowUpdateKeepsAttribution(db, s, row);
  }

  // ----- each operation -----------------------------------------------------------------

  /** A committed call of a fenced path adds exactly one admissible row, and a refused one nothing. */
  lemma StepAppendIsAppend(db: Db, run: RunId, step: StepId, epoch: nat, kind: Kind, payload: Payload,
                           key: Option<string>) returns (e: Event)
    requires StepShape(db) && (StepKind(kind) || kind.PolicyDecision?) && !kind.StepStarted?
    ensures var (db', reply) := AppendStepKind(db, run, step, epoch, kind, payload, key);
            if reply.Committed? then Appended(db, db', e) && Admissible(db, e) else db' == db
  {
    var (db', reply) := AppendStepKind(db, run, step, epoch, kind, payload, key);
    e := Event(run, 0, kind, Some(step), key, payload, ByLease(step, epoch));
    if reply.Committed? {
      e := e.(seqNo := reply.seqNo);
      assert RowShape(db.steps[step]);
    }
  }

  lemma StartedIsAppend(db: Db, run: RunId, step: StepId, epoch: nat, payload: Payload) returns (e: Event)
    requires StepShape(db)
    ensures var (db', reply) := CommitStepStarted(db, run, step, epoch, payload);
            if reply.Committed? then Appended(db, db', e) && Admissible(db, e) else db' == db
  {
    var (db', reply) := CommitStepStarted(db, run, step, epoch, payload);
    e := Event(run, 0, StepStarted, Some(step), None, payload, ByLease(step, epoch));
    if reply.Committed? {
      e := e.(seqNo := reply.seqNo);
      assert RowShape(db.steps[step]);
    }
  }

  lemma TerminalIsAppend(db: Db, run: RunId, step: StepId, epoch: nat, completed: bool, payload: Payload)
    returns (e: Event)
    requires StepShape(db)
    ensures var (db', reply) := AppendTerminalKind(db, run, step, epoch, completed, payload);
            if reply.Committed? then Appended(db, db', e) && Admissible(db, e) else db' == db
  {
    var (db', reply) := AppendTerminalKind(db, run, step, epoch, completed, payload);
    e := Event(run, 0, if completed then RunCompleted else RunFailed, None, None, payload, ByLease(step, epoch));
    if reply.Committed? {
      e := e.(seqNo := reply.seqNo);
      assert RowShape(db.steps[step]);
    }
  }

  lemma LifecycleIsAppend(db: Db, run: RunId, kind: Kind, payload: Payload) returns (e: Event)
    requires LifecycleKind(kind)
    ensures var (db', reply) := AppendLifecycleKind(db, run, kind, payload);
            if reply.Committed? then Appended(db, db', e) && Admissible(db, e) else db' == db
  {
    var (db', reply) := AppendLifecycleKind(db, run, kind, payload);
    e := Event(run, 0, kind, None, None, payload, ByApi);
    if reply.Committed? {
      e := e.(seqNo := reply.seqNo);
    }
  }

  lemma DecisionIsAppend(db: Db, run: RunId, step: StepId, suspension: nat, cycle: nat, pair: Pair) returns (e: Event)
    requires step in db.steps && db.steps[step].run == run && cycle < db.steps[step].cycles
    ensures var after := InsertDecision(db, run, step, suspension, cycle, pair);
            after.Some? ==> Appended(db, after.value, e) && Admissible(db, e) && after.value.steps == db.steps
  {
    var after := InsertDecision(db, run, step, suspension, cycle, pair);
    e := Event(run, 0, if pair.granted then ApprovalGranted else ApprovalRejected, Some(step),
               Some(DecisionKey(suspension, pair.call)), NoPayload, ByDecision(suspension, pair.call, cycle));
    if after.Some? {
      e := e.(seqNo := db.runs[run].nextSeq + 1);
    }
  }

  lemma StepAppendKeeps(db: Db, run: RunId, step: StepId, epoch: nat, kind: Kind, payload: Payload,
                        key: Option<string>)
    requires Inv(db) && (StepKind(kind) || kind.PolicyDecision?) && !kind.StepStarted?
    ensures Inv(AppendStepKind(db, run, step, epoch, kind, payload, key).0)
  {
    hide Referential, Dense, Attributed, EpochsOrdered, StateFollowsLog, EndsOnce, EndedIsTerminal, StepShape, KeysUnique,
      Appended, Admissible, AppendStepKind;
    var e := StepAppendIsAppend(db, run, step, epoch, kind, payload, key);
    if AppendStepKind(db, run, step, epoch, kind, payload, key).1.Committed? {
      AppendKeeps(db, AppendStepKind(db, run, step, epoch, kind, payload, key).0, e);
    }
  }

  lemma StartedKeeps(db: Db, run: RunId, step: StepId, epoch: nat, payload: Payload)
    requires Inv(db)
    ensures Inv(CommitStepStarted(db, run, step, epoch, payload).0)
  {
    hide Referential, Dense, Attributed, EpochsOrdered, StateFollowsLog, EndsOnce, EndedIsTerminal, StepShape, KeysUnique,
      Appended, Admissible, CommitStepStarted;
    var e := StartedIsAppend(db, run, step, epoch, payload);
    if CommitStepStarted(db, run, step, epoch, payload).1.Committed? {
      AppendKeeps(db, CommitStepStarted(db, run, step, epoch, payload).0, e);
    }
  }

  lemma TerminalKeeps(db: Db, run: RunId, step: StepId, epoch: nat, completed: bool, payload: Payload)
    requires Inv(db)
    ensures Inv(AppendTerminalKind(db, run, step, epoch, completed, payload).0)
  {
    hide Referential, Dense, Attributed, EpochsOrdered, StateFollowsLog, EndsOnce, EndedIsTerminal, StepShape, KeysUnique,
      Appended, Admissible, AppendTerminalKind;
    var e := TerminalIsAppend(db, run, step, epoch, completed, payload);
    if AppendTerminalKind(db, run, step, epoch, completed, payload).1.Committed? {
      AppendKeeps(db, AppendTerminalKind(db, run, step, epoch, completed, payload).0, e);
    }
  }

  lemma LifecycleKeeps(db: Db, run: RunId, kind: Kind, payload: Payload)
    requires Inv(db) && LifecycleKind(kind)
    ensures Inv(AppendLifecycleKind(db, run, kind, payload).0)
  {
    hide Referential, Dense, Attributed, EpochsOrdered, StateFollowsLog, EndsOnce, EndedIsTerminal, StepShape, KeysUnique,
      Appended, Admissible, AppendLifecycleKind;
    var e := LifecycleIsAppend(db, run, kind, payload);
    if AppendLifecycleKind(db, run, kind, payload).1.Committed? {
      AppendKeeps(db, AppendLifecycleKind(db, run, kind, payload).0, e);
    }
  }

  lemma {:induction false} NoRowsNoLog(events: seq<Event>, run: RunId)
    requires forall i :: 0 <= i < |events| ==> events[i].run != run
    ensures RunLog(events, run) == []
  {
    if events != [] {
      NoRowsNoLog(events[..|events| - 1], run);
    }
  }

  lemma RequestedAdmitted()
    ensures TypeGate(LifecyclePath, Some("run.requested")) == Admit("run.requested")
  {
    assert "run.requested" == RUN_LIFECYCLE[0];
    ReservedNamesHaveShape("run.requested");
    ShapeIsFixed("run.requested");
  }

  function Seeded(db: Db, run: RunId, step: StepId, pool: string): Db {
    db.(runs := db.runs[run := Run(Requested, 0)],
        steps := db.steps[step := Step(run, Runnable, None, 0, None, pool, db.now, 0, false)])
  }

  lemma SeedingKeepsLogs(db: Db, run: RunId, step: StepId, pool: string)
    requires Referential(db) && Dense(db) && StateFollowsLog(db) && run !in db.runs && step !in db.steps
    ensures var seeded := Seeded(db, run, step, pool);
            Referential(seeded) && Dense(seeded) && StateFollowsLog(seeded)
  {
    NoRowsNoLog(db.events, run);
  }

  lemma SeedingKeepsRows(db: Db, run: RunId, step: StepId, pool: string)
    requires Attributed(db) && EndedIsTerminal(db) && StepShape(db) && run !in db.runs && step !in db.steps
    ensures var seeded := Seeded(db, run, step, pool);
            Attributed(seeded) && EndedIsTerminal(seeded) && StepShape(seeded)
  {
    var seeded := Seeded(db, run, step, pool);
    forall i | 0 <= i < |seeded.events| ensures AttributedRow(seeded, seeded.events[i]) {
      assert AttributedRow(db, db.events[i]);
    }
  }

  lemma SeedingKeeps(db: Db, run: RunId, step: StepId, pool: string)
    requires Inv(db) && run !in db.runs && step !in db.steps
    ensures Inv(Seeded(db, run, step, pool))
  {
    hide Referential, Dense, Attributed, EpochsOrdered, StateFollowsLog, EndsOnce, EndedIsTerminal, StepShape, KeysUnique;
    SeedingKeepsLogs(db, run, step, pool);
    SeedingKeepsRows(db, run, step, pool);
  }

  lemma StartKeeps(db: Db, run: RunId, step: StepId, pool: string, payload: Payload)
    requires Inv(db)
    ensures Inv(StartRun(db, run, step, pool, payload).0)
  {
    hide Inv, AppendLifecycleKind;
    if run !in db.runs && step !in db.steps {
      SeedingKeeps(db, run, step, pool);
      RequestedAdmitted();
      LifecycleKeeps(Seeded(db, run, step, pool), run, RunRequested, payload);
    }
  }

  lemma {:induction false} InsertDecisionsKeeps(db: Db, run: RunId, step: StepId, suspension: nat, cycle: nat,
                                                pairs: seq<Pair>)
    requires Inv(db) && step in db.steps && db.steps[step].run == run && cycle < db.steps[step].cycles
    ensures var after := InsertDecisions(db, run, step, suspension, cycle, pairs);
            after.Some? ==> Inv(after.value) && after.value.steps == db.steps
  {
    hide Inv, Appended, Admissible, InsertDecision;
    if pairs != [] {
      InsertDecisionsKeeps(db, run, step, suspension, cycle, pairs[..|pairs| - 1]);
      var mid := InsertDecisions(db, run, step, suspension, cycle, pairs[..|pairs| - 1]);
      if mid.Some? {
        var e := DecisionIsAppend(mid.value, run, step, suspension, cycle, pairs[|pairs| - 1]);
        var after := InsertDecision(mid.value, run, step, suspension, cycle, pairs[|pairs| - 1]);
        if after.Some? {
          AppendKeeps(mid.value, after.value, e);
        }
      }
    }
  }

  lemma DecideKeeps(db: Db, run: RunId, step: StepId, pairs: seq<Pair>, suspension: nat)
    requires Inv(db)
    ensures Inv(Decide(db, run, step, pairs, suspension).0)
  {
    if DecisionError(db, run, step, suspension).None? {
      var cleared := ClearHold(db, step);
      assert RowShape(cleared.steps[step]) by { assert RowShape(db.steps[step]); }
      hide Inv;
      RowUpdateKeeps(db, step, cleared.steps[step]);
      InsertDecisionsKeeps(cleared, run, step, suspension, db.steps[step].cycles, pairs);
    }
  }

  lemma RowOperationKeeps(db: Db, op: DbOp)
    requires Inv(db) && Issued(db, op)
    requires op.ClaimStep? || op.RenewLease? || op.ReleaseStep? || op.HoldStep? || op.ExpireStep? || op.Terminate?
    ensures Inv(Apply(db, op).0)
  {
    hide Referential, Dense, Attributed, EpochsOrdered, StateFollowsLog, EndsOnce, EndedIsTerminal, KeysUnique;
    var db' := Apply(db, op).0;
    if db' != db {
      assert RowShape(db.steps[op.step]);
      RowUpdateKeeps(db, op.step, db'.steps[op.step]);
    }
  }

  lemma TickKeeps(db: Db, seconds: nat)
    requires Inv(db)
    ensures Inv(db.(now := db.now + seconds))
  {
    hide EpochsOrdered, EndsOnce, DenseLog, KeysUnique;
    forall i | 0 <= i < |db.events| ensures AttributedRow(db.(now := db.now + seconds), db.events[i]) {
      assert AttributedRow(db, db.events[i]);
    }
  }

  lemma ApplyKeeps(db: Db, op: DbOp)
    requires Inv(db) && Issued(db, op)
    ensures Inv(Apply(db, op).0)
  {
    hide Inv;
    match op
    case Nothing =>
    case Tick(seconds) => TickKeeps(db, seconds);
    case Start(run, step, pool, payload) => StartKeeps(db, run, step, pool, payload);
    case Lifecycle(run, kind, payload) => LifecycleKeeps(db, run, kind, payload);
    case AppendStep(run, step, epoch, kind, payload, key) => StepAppendKeeps(db, run, step, epoch, kind, payload, key);
    case AppendStarted(run, step, epoch, payload) => StartedKeeps(db, run, step, epoch, payload);
    case AppendPolicy(run, step, epoch, payload) =>
      StepAppendKeeps(db, run, step, epoch, PolicyDecision, payload, None);
    case AppendTerminal(run, step, epoch, completed, payload) =>
      TerminalKeeps(db, run, step, epoch, completed, payload);
    case AppendDecision(run, step, pairs, suspension) => DecideKeeps(db, run, step, pairs, suspension);
    case _ => RowOperationKeeps(db, op);
  }

  // ----- every run of transactions ------------------------------------------------------

  /** Every sequence of transactions from the empty tables keeps every invariant above. */
  lemma {:induction false} EveryExecutionKeeps(ops: seq<DbOp>)
    requires AllIssued(EMPTY, ops)
    ensures Inv(Execute(EMPTY, ops))
  {
    if ops != [] {
      EveryExecutionKeeps(ops[..|ops| - 1]);
      ApplyKeeps(Execute(EMPTY, ops[..|ops| - 1]), ops[|ops| - 1]);
    }
  }
}
