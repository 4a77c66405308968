// The whole system as a transition system: the tables, every claim's step body with its
// program counter, and every worker. One body action is one committed transaction or one read,
// so a crash, a lease expiry or another worker's action can fall between any two of them.
module Protocol {
  import opened EventTypes
  import opened Schema
  import opened AppendPaths
  import opened Operations
  import opened IdempotencyKeys

  /** The pool configuration the bodies read: approval_cycle_cap, lease_ttl_seconds, and the
      event-count ceiling that only pages. */
  datatype Config = Config(cap: nat, ttl: nat, spendCeiling: nat)

  const ANALYSIS_POOL: string := "analysis"

  datatype Outcome = Succeeded | Raised

  /** Where a step body stands: the name of the next read or transaction it makes. */
  datatype Pc =
    // the executor's body
    | ReadCycles | CapEvent | CapTerminal
    | LoadRole | RoleRefusal | CompileRole | CompileRefusal | Starting | CeilingEvent | Preparing
    | ResumeRef | ResumeCycle | ResumeSuspension | ResumeDecisions | Resuming
    | RefuseEvent | RefuseTerminal
    | Agent | Terminating | Suspending | Holding | FailEvent
    // the analysis body
    | ReadFailed | FinishFailure | AnalysisStarting | Computing | AnalysisFailEvent | AnalysisFailTerminal
    // both
    | Completing | RunCompleting | Done(outcome: Outcome)

  predicate AnalysisPc(pc: Pc) {
    pc.ReadFailed? || pc.FinishFailure? || pc.AnalysisStarting? || pc.Computing?
    || pc.AnalysisFailEvent? || pc.AnalysisFailTerminal?
  }

  predicate SharedPc(pc: Pc) {
    pc.Completing? || pc.RunCompleting? || pc.Done?
  }

  /** One claim's body. cycles is what the first read saw; pending, cycle, suspension and
      approvals are what the resume reads built; asking is what the agent asked approval for;
      held records that its own hold update matched. */
  datatype Body = Body(worker: WorkerId, run: RunId, analysis: bool, pc: Pc, cycles: nat, ceiling: bool,
                       pending: seq<string>, cycle: nat, suspension: nat, approvals: map<string, bool>,
                       asking: seq<string>, held: bool)

  /** What the environment decides at a body's step. Lost is an exception before the transaction
      commits, and whether it is a LookupError; LostReply is one after it. Invoke and Invoked carry
      the model's tool-call id; Unrecorded is a decision whose append raised. */
  datatype Choice =
    | Go | Otherwise | Lost(lookup: bool) | LostReply
    | Ask(ids: seq<string>) | Invoke(call: string) | Invoked(call: string) | RecordDecision | Unrecorded

  // ----- the resume reads ---------------------------------------------------------------

  /** ORDER BY seq DESC LIMIT 1 over the step's suspensions. */
  function LatestPending(events: seq<Event>, step: StepId): Option<seq<string>> {
    var log := Suspensions(events, step);
    if log == [] || !log[|log| - 1].payload.PendingCalls? then None else Some(log[|log| - 1].payload.ids)
  }

  /** ORDER BY seq LIMIT 1 OFFSET cycle - 1. */
  function NthSuspension(events: seq<Event>, step: StepId, cycle: nat): Option<nat> {
    var log := Suspensions(events, step);
    if 1 <= cycle <= |log| then Some(log[cycle - 1].seqNo) else None
  }

  predicate HasPrefix(s: string, p: string) {
    |p| <= |s| && s[..|p|] == p
  }

  predicate IsDecisionRow(e: Event, run: RunId, prefix: string) {
    e.run == run && DecisionKind(e.kind) && e.key.Some? && HasPrefix(e.key.value, prefix)
  }

  /** The committed dictionary: call id to granted, over the rows keyed by the suspension. */
  function CommittedDecisions(events: seq<Event>, run: RunId, suspension: nat): map<string, bool> {
    if events == [] then map[]
    else
      var rest := CommittedDecisions(events[..|events| - 1], run, suspension);
      var e := events[|events| - 1];
      var prefix := DecisionPrefix(suspension);
      if IsDecisionRow(e, run, prefix) then rest[e.key.value[|prefix|..] := e.kind.ApprovalGranted?] else rest
  }

  /** approval_results_for_cycle past its suspension lookup: None is the LookupError. */
  function Approvals(committed: map<string, bool>, pending: seq<string>): Option<map<string, bool>> {
    if committed == map[] || exists i :: 0 <= i < |pending| && pending[i] !in committed then None
    else Some(map id | id in pending && id in committed :: committed[id])
  }

  // ----- the body's transactions --------------------------------------------------------

  const CAP_EXCEEDED: Kind := Other("step.approval.cap.exceeded")
  const CEILING_REACHED: Kind := Other("step.spend.ceiling.reached")
  const ROLE_LOAD_FAILED: Kind := Other("role.load.failed")
  const ROLE_COMPILE_REFUSED: Kind := Other("role.compile.refused")
  const TOOL_COMPLETED: Kind := Other("tool.completed")

  function Narrate(b: Body, s: StepId, e: nat, kind: Kind): DbOp {
    AppendStep(b.run, s, e, kind, NoPayload, None)
  }

  /** The transaction a body issues from its program counter; Nothing where it only reads. */
  function BodyOp(s: StepId, e: nat, b: Body, choice: Choice): DbOp {
    if choice.Lost? then Nothing
    else match b.pc
      case CapEvent => Narrate(b, s, e, CAP_EXCEEDED)
      case CapTerminal => AppendTerminal(b.run, s, e, false, NoPayload)
      case RoleRefusal => Narrate(b, s, e, ROLE_LOAD_FAILED)
      case CompileRefusal => Narrate(b, s, e, ROLE_COMPILE_REFUSED)
      case Starting => AppendStarted(b.run, s, e, Ref("producer"))
      case AnalysisStarting => AppendStarted(b.run, s, e, NoPayload)
      case CeilingEvent => Narrate(b, s, e, CEILING_REACHED)
      case Resuming => Narrate(b, s, e, StepResumed)
      case RefuseEvent => Narrate(b, s, e, StepFailed)
      case RefuseTerminal => AppendTerminal(b.run, s, e, false, NoPayload)
      case Terminating => Terminate(s, e)
      case FailEvent => Narrate(b, s, e, StepFailed)
      case AnalysisFailEvent => Narrate(b, s, e, StepFailed)
      case AnalysisFailTerminal => AppendTerminal(b.run, s, e, false, NoPayload)
      case FinishFailure => AppendTerminal(b.run, s, e, false, NoPayload)
      case Suspending => AppendStep(b.run, s, e, StepSuspended, PendingCalls(b.asking), None)
      case Holding => HoldStep(b.worker, s, e)
      case Completing => AppendStep(b.run, s, e, StepCompleted, Ref("output"), None)
      case RunCompleting => AppendTerminal(b.run, s, e, true, NoPayload)
      case Agent =>
        (match choice
         case Invoke(call) => AppendStep(b.run, s, e, ToolInvoked, NoPayload, Some(InvocationKey(b.run, s, call)))
         case Invoked(call) => AppendStep(b.run, s, e, TOOL_COMPLETED, NoPayload, Some(InvocationKey(b.run, s, call)))
         case RecordDecision => AppendPolicy(b.run, s, e, NoPayload)
         case _ => Nothing)
      case _ => Nothing
  }

  /** A resuming body takes any LookupError for the refusal it has already recorded, so one from
      elsewhere leaves without a trace. */
  predicate TakenForRefusal(b: Body) {
    b.pc.ResumeCycle? || b.pc.Resuming? || b.pc.RefuseEvent? || b.pc.RefuseTerminal?
    || ((b.pc.Agent? || b.pc.Terminating?) && b.cycles > 0)
  }

  /** Where an exception lands: the handlers that record step.failed first, the refusal where a
      LookupError is the decision lookup's, or straight out of the body. */
  function OnException(b: Body, lookup: bool): (pc: Pc)
    ensures || pc.Done? || (pc.FailEvent? && (ResumePc(b.pc) || b.pc.Agent? || b.pc.Terminating?))
            || (pc.RefuseEvent? && (b.pc.ResumeSuspension? || b.pc.ResumeDecisions?))
            || (pc.AnalysisFailEvent? && b.pc.Computing?)
  {
    if lookup && TakenForRefusal(b) then Done(Raised)
    else
      match b.pc
      case ResumeCycle => FailEvent
      case ResumeSuspension => if lookup then RefuseEvent else FailEvent
      case ResumeDecisions => if lookup then RefuseEvent else FailEvent
      case Resuming => FailEvent
      case RefuseEvent => FailEvent
      case RefuseTerminal => FailEvent
      case Agent => FailEvent
      case Terminating => FailEvent
      case Computing => AnalysisFailEvent
      case _ => Done(Raised)
  }

  function Goto(b: Body, pc: Pc): Body {
    b.(pc := pc)
  }

  /** The body after its step, from the tables it read and the reply to its transaction. */
  function NextBody(db: Db, cfg: Config, s: StepId, b: Body, choice: Choice, reply: Reply): Body
    requires s in db.steps
  {
    if choice.Lost? then Goto(b, OnException(b, choice.lookup))
    else if choice.LostReply? && !b.pc.Holding? then Goto(b, OnException(b, false))
    else Proceed(db, cfg, s, b, choice, reply)
  }

  /** The body after a step that raised nothing. */
  function Proceed(db: Db, cfg: Config, s: StepId, b: Body, choice: Choice, reply: Reply): Body
    requires s in db.steps
  {
    if AnalysisPc(b.pc) then ProceedAnalysis(db, s, b, choice, reply)
    else if ResumePc(b.pc) then ProceedResume(db, s, b, reply)
    else if StartPc(b.pc) then ProceedStart(db, cfg, s, b, choice, reply)
    else ProceedWork(b, choice, reply)
  }

  predicate StartPc(pc: Pc) {
    pc.ReadCycles? || pc.CapEvent? || pc.CapTerminal? || pc.LoadRole? || pc.RoleRefusal?
    || pc.CompileRole? || pc.CompileRefusal? || pc.Starting?
    || pc.CeilingEvent? || pc.Preparing?
  }

  predicate ResumePc(pc: Pc) {
    pc.ResumeRef? || pc.ResumeCycle? || pc.ResumeSuspension? || pc.ResumeDecisions? || pc.Resuming?
    || pc.RefuseEvent? || pc.RefuseTerminal?
  }

  /** The agent finishes, suspends on approvals, records what it does through the tool stack, or fails.
      An invocation already recorded, and a decision that cannot be, end the step first. */
  function AgentNext(b: Body, choice: Choice, reply: Reply): Body {
    match choice
    case Go => Goto(b, Completing)
    case Ask(ids) => b.(asking := ids, pc := Suspending)
    case Invoke(_) =>
      if reply.Committed? then b else Goto(b, if reply == Refused(UniqueViolation) then Terminating else FailEvent)
    case Invoked(_) => if reply.Committed? then b else Goto(b, FailEvent)
    case RecordDecision => if reply.Committed? then b else Goto(b, Terminating)
    case Unrecorded => Goto(b, Terminating)
    case _ => Goto(b, FailEvent)
  }

  /** Same claim, whatever else changed. */
  predicate SameClaim(b: Body, b': Body) {
    b'.worker == b.worker && b'.run == b.run && b'.analysis == b.analysis
  }

  function ProceedStart(db: Db, cfg: Config, s: StepId, b: Body, choice: Choice, reply: Reply): (b': Body)
    requires s in db.steps && StartPc(b.pc)
    ensures SameClaim(b, b') && b'.held == b.held
    ensures StartPc(b'.pc) || b'.pc.ResumeRef? || b'.pc.Agent? || b'.pc.FailEvent? || b'.pc.Done?
  {
    var ok := reply.Committed?;
    match b.pc
    case ReadCycles =>
      // An unreadable principal is a plain return; otherwise the cap is tested before the resume.
      if choice.Otherwise? then Goto(b, Done(Succeeded))
      else
        var n := db.steps[s].cycles;
        b.(cycles := n, pc := if n >= cfg.cap then CapEvent else if n > 0 then ResumeRef else LoadRole)
    case CapEvent => Goto(b, if ok then CapTerminal else Done(Raised))
    case CapTerminal => Goto(b, Done(Raised))
    case LoadRole => Goto(b, if choice.Otherwise? then RoleRefusal else CompileRole)
    case RoleRefusal => Goto(b, if ok then Done(Succeeded) else Done(Raised))
    case CompileRole =>
      if choice.Otherwise? then Goto(b, CompileRefusal)
      else b.(ceiling := b.run in db.runs && db.runs[b.run].nextSeq > cfg.spendCeiling, pc := Starting)
    case CompileRefusal => Goto(b, if ok then Done(Succeeded) else Done(Raised))
    case Starting => Goto(b, if !ok then Done(Raised) else if b.ceiling then CeilingEvent else Preparing)
    case CeilingEvent => Goto(b, if ok then Preparing else Done(Raised))
    case Preparing => Goto(b, if choice.Otherwise? then FailEvent else Agent)
  }

  predicate WorkPc(pc: Pc) {
    pc.Agent? || pc.Terminating? || pc.Suspending? || pc.Holding? || pc.FailEvent? || pc.Completing? || pc.RunCompleting? || pc.Done?
  }

  function ProceedWork(b: Body, choice: Choice, reply: Reply): (b': Body)
    requires WorkPc(b.pc)
    ensures SameClaim(b, b') && b'.cycles == b.cycles && WorkPc(b'.pc)
    ensures (b.pc.Holding? ==> b'.pc.Done?) && (b'.held != b.held ==> b.pc.Holding?)
    ensures SharedPc(b.pc) ==> SharedPc(b'.pc)
    ensures (b'.pc.Agent? || b'.pc.Suspending? || b'.pc.Terminating? ==> b.pc.Agent?)
    ensures (b'.pc.Holding? ==> b.pc.Suspending? && reply.Committed?)
    ensures b'.pc.RunCompleting? ==> b.pc.Completing? && reply.Committed?
  {
    var ok := reply.Committed?;
    match b.pc
    case Agent => AgentNext(b, choice, reply)
    case Terminating => Goto(b, FailEvent)
    case Suspending => Goto(b, if ok then Holding else Done(Raised))
    case Holding =>
      b.(held := reply == Rows(1), pc := if choice.LostReply? then Done(Raised) else Done(Succeeded))
    case FailEvent => Goto(b, Done(Raised))
    case Completing => Goto(b, if ok then RunCompleting else Done(Raised))
    case RunCompleting => Goto(b, if ok then Done(Succeeded) else Done(Raised))
    case Done(_) => b
  }

  function ProceedResume(db: Db, s: StepId, b: Body, reply: Reply): (b': Body)
    requires s in db.steps && ResumePc(b.pc)
    ensures SameClaim(b, b') && b'.held == b.held && b'.cycles == b.cycles
    ensures ResumePc(b'.pc) || b'.pc.FailEvent? || b'.pc.Agent? || b'.pc.Done?
  {
    var ok := reply.Committed?;
    match b.pc
    case ResumeRef =>
      var ref := LatestPending(db.events, s);
      if ref.None? then Goto(b, FailEvent) else b.(pending := ref.value, pc := ResumeCycle)
    case ResumeCycle => b.(cycle := db.steps[s].cycles, pc := ResumeSuspension)
    case ResumeSuspension =>
      var nth := NthSuspension(db.events, s, b.cycle);
      if nth.None? then Goto(b, RefuseEvent) else b.(suspension := nth.value, pc := ResumeDecisions)
    case ResumeDecisions =>
      var found := Approvals(CommittedDecisions(db.events, db.steps[s].run, b.suspension), b.pending);
      if found.None? then Goto(b, RefuseEvent) else b.(approvals := found.value, pc := Resuming)
    case Resuming => Goto(b, if ok then Agent else FailEvent)
    case RefuseEvent => Goto(b, if ok then RefuseTerminal else FailEvent)
    case RefuseTerminal => Goto(b, if ok then Done(Raised) else FailEvent)
  }

  function ProceedAnalysis(db: Db, s: StepId, b: Body, choice: Choice, reply: Reply): (b': Body)
    requires AnalysisPc(b.pc)
    ensures b' == Goto(b, b'.pc)
    ensures AnalysisPc(b'.pc) || b'.pc.Completing? || b'.pc.Done?
  {
    var ok := reply.Committed?;
    match b.pc
    case ReadFailed => Goto(b, if HasFailed(db.events, s) then FinishFailure else AnalysisStarting)
    case FinishFailure => Goto(b, Done(Raised))
    case AnalysisStarting =>
      // An unexpected role or a missing request payload starts the step and fails it.
      Goto(b, if !ok then Done(Raised) else if choice.Otherwise? then AnalysisFailEvent else Computing)
    case Computing => Goto(b, if choice.Otherwise? then AnalysisFailEvent else Completing)
    case AnalysisFailEvent => Goto(b, if ok then AnalysisFailTerminal else Done(Raised))
    case AnalysisFailTerminal => Goto(b, Done(Raised))
  }

  // ----- workers ------------------------------------------------------------------------

  /** Executing while its supervisor runs a claim; Abandoning once a heartbeat told it to stop;
      Leaving once it will claim no more; Dead after a crash. */
  datatype Doing = Idle | Executing(step: StepId, epoch: nat) | Abandoning(step: StepId, epoch: nat) | Leaving | Dead

  datatype Worker = Worker(pool: string, doing: Doing)

  type Claim = (StepId, nat)

  datatype Sys = Sys(db: Db, bodies: map<Claim, Body>, workers: map<WorkerId, Worker>, cfg: Config)

  function Initial(cfg: Config): Sys {
    Sys(EMPTY, map[], map[], cfg)
  }

  datatype Action =
    | Api(op: DbOp)
    | Join(worker: WorkerId, pool: string)
    | TakeClaim(worker: WorkerId, step: StepId)
    | StepBody(step: StepId, epoch: nat, choice: Choice)
    | Heartbeat(worker: WorkerId)
    | Finish(worker: WorkerId)
    | Drain(worker: WorkerId)
    | Leave(worker: WorkerId)
    | Crash(worker: WorkerId)

  predicate ApiOp(op: DbOp) {
    match op
    case Tick(_) => true
    case Start(_, _, _, _) => true
    case Lifecycle(_, kind, _) => kind.RunRequested? || kind.RunCancelled?
    case AppendDecision(_, _, pairs, _) => pairs != []
    case _ => false
  }

  predicate OnClaim(sys: Sys, worker: WorkerId) {
    worker in sys.workers && sys.workers[worker].doing.Executing?
    && (sys.workers[worker].doing.step, sys.workers[worker].doing.epoch) in sys.bodies
  }

  /** The claim the worker's supervisor is on. */
  function Current(sys: Sys, worker: WorkerId): Claim
    requires OnClaim(sys, worker)
  {
    (sys.workers[worker].doing.step, sys.workers[worker].doing.epoch)
  }

  predicate Enabled(sys: Sys, a: Action) {
    match a
    case Api(op) => ApiOp(op)
    case Join(w, _) => w !in sys.workers
    case TakeClaim(w, s) =>
      w in sys.workers && sys.workers[w].doing.Idle? && Claimable(sys.db, s, sys.workers[w].pool)
    case StepBody(s, e, _) =>
      && (s, e) in sys.bodies && s in sys.db.steps
      && sys.bodies[(s, e)].worker in sys.workers
      && !sys.workers[sys.bodies[(s, e)].worker].doing.Dead?
      && !sys.bodies[(s, e)].pc.Done?
    case Heartbeat(w) => OnClaim(sys, w)
    // Released with the recorded outcome: the body has returned.
    case Finish(w) => OnClaim(sys, w) && sys.bodies[Current(sys, w)].pc.Done?
    // Surrendered on a drain: the body was stopped and joined first.
    case Drain(w) => OnClaim(sys, w) && sys.bodies[Current(sys, w)].pc.Done?
    // Leave the row alone: idle and told to stop, a drain whose body would not stop, or the end
    // of an abandoned claim.
    case Leave(w) => w in sys.workers && !sys.workers[w].doing.Dead?
    case Crash(w) => w in sys.workers
  }

  function OpOf(sys: Sys, a: Action): DbOp
    requires Enabled(sys, a)
  {
    match a
    case Api(op) => op
    case TakeClaim(w, s) => ClaimStep(w, s, sys.cfg.ttl)
    case StepBody(s, e, choice) => BodyOp(s, e, sys.bodies[(s, e)], choice)
    case Heartbeat(w) => RenewLease(w, sys.workers[w].doing.step, sys.workers[w].doing.epoch, sys.cfg.ttl)
    case Finish(w) =>
      ReleaseStep(w, sys.workers[w].doing.step, sys.workers[w].doing.epoch,
                  if sys.bodies[Current(sys, w)].pc.outcome.Succeeded? then Finished else Faulted)
    case Drain(w) => ExpireStep(w, sys.workers[w].doing.step)
    case _ => Nothing
  }

  function FreshBody(sys: Sys, w: WorkerId, s: StepId): Body
    requires w in sys.workers && s in sys.db.steps
  {
    var analysis := sys.workers[w].pool == ANALYSIS_POOL;
    Body(w, sys.db.steps[s].run, analysis, if analysis then ReadFailed else ReadCycles,
         0, false, [], 0, 0, map[], [], false)
  }

  function BodiesAfter(sys: Sys, a: Action, reply: Reply): map<Claim, Body>
    requires Enabled(sys, a)
  {
    match a
    case TakeClaim(w, s) => sys.bodies[(s, sys.db.steps[s].epoch + 1) := FreshBody(sys, w, s)]
    case StepBody(s, e, choice) =>
      sys.bodies[(s, e) := NextBody(sys.db, sys.cfg, s, sys.bodies[(s, e)], choice, reply)]
    case _ => sys.bodies
  }

  function Become(sys: Sys, w: WorkerId, doing: Doing): map<WorkerId, Worker>
    requires w in sys.workers
  {
    sys.workers[w := sys.workers[w].(doing := doing)]
  }

  predicate AllReturned(sys: Sys, w: WorkerId) {
    forall c :: c in sys.bodies && sys.bodies[c].worker == w ==> sys.bodies[c].pc.Done?
  }

  function WorkersAfter(sys: Sys, a: Action, reply: Reply): map<WorkerId, Worker>
    requires Enabled(sys, a)
  {
    match a
    case Join(w, pool) => sys.workers[w := Worker(pool, Idle)]
    case TakeClaim(w, s) => Become(sys, w, Executing(s, sys.db.steps[s].epoch + 1))
    case Heartbeat(w) =>
      // Fenced, or the run is over: stop the body and leave the row alone.
      if reply.Refused? || (reply.RunStateIs? && Terminal(reply.state)) then
        Become(sys, w, Abandoning(sys.workers[w].doing.step, sys.workers[w].doing.epoch))
      else sys.workers
    case Finish(w) => Become(sys, w, Idle)
    case Drain(w) => Become(sys, w, Leaving)
    case Leave(w) =>
      // The join: back to the poll loop if the abandoned body returned, otherwise claim no more.
      var doing := sys.workers[w].doing;
      Become(sys, w,
             if doing.Abandoning? && (doing.step, doing.epoch) in sys.bodies
                && sys.bodies[(doing.step, doing.epoch)].pc.Done?
             then Idle else Leaving)
    case Crash(w) => Become(sys, w, Dead)
    case _ => sys.workers
  }

  /** One action; an action that is not enabled changes nothing. */
  function Act(sys: Sys, a: Action): Sys {
    if !Enabled(sys, a) then sys
    else
      var (db, reply) := Apply(sys.db, OpOf(sys, a));
      Sys(db, BodiesAfter(sys, a, reply), WorkersAfter(sys, a, reply), sys.cfg)
  }

  /** The system after a sequence of actions. */
  function Reach(sys: Sys, actions: seq<Action>): Sys {
    if actions == [] then sys else Act(Reach(sys, actions[..|actions| - 1]), actions[|actions| - 1])
  }

  lemma {:induction false} ConfigFixed(cfg: Config, actions: seq<Action>)
    ensures Reach(Initial(cfg), actions).cfg == cfg
  {
    if actions != [] {
      ConfigFixed(cfg, actions[..|actions| - 1]);
    }
  }

  lemma ReachStep(cfg: Config, actions: seq<Action>, i: nat)
    requires i < |actions|
    ensures Reach(Initial(cfg), actions[..i + 1]) == Act(Reach(Initial(cfg), actions[..i]), actions[i])
  {
    assert actions[..i + 1][..i] == actions[..i];
  }
}
