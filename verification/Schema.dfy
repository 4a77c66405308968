// The runs, steps and events tables as one value, and the queries the code runs over events.
module Schema {
  import opened EventTypes
  import opened Digits

  type RunId = nat
  type StepId = nat
  type WorkerId = nat

  /** The CHECK on runs.state. */
  datatype RunState =
    Requested | Claimed | Running | AwaitingApproval | Expired | Completed | Failed | Cancelled

  predicate Terminal(s: RunState) {
    s.Completed? || s.Failed? || s.Cancelled?
  }

  /** The CHECK on steps.state; 'completed' and 'failed' are Finished and Faulted here. */
  datatype StepState = Runnable | Leased | Suspended | Finished | Faulted

  datatype Run = Run(state: RunState, nextSeq: nat)

  datatype Step = Step(run: RunId, state: StepState, owner: Option<WorkerId>, epoch: nat,
                       lease: Option<int>, pool: string, created: int, cycles: nat, awaiting: bool)

  /** events.type, with a constructor for each name the code branches on. */
  datatype Kind =
    | RunRequested | RunCancelled | RunCompleted | RunFailed
    | PolicyDecision | ApprovalGranted | ApprovalRejected
    | StepStarted | StepSuspended | StepResumed | StepCompleted | StepFailed
    | ToolInvoked
    | Other(name: string)

  function NameOf(k: Kind): string {
    match k
    case RunRequested => "run.requested"
    case RunCancelled => "run.cancelled"
    case RunCompleted => "run.completed"
    case RunFailed => "run.failed"
    case PolicyDecision => "policy.decision"
    case ApprovalGranted => "approval.granted"
    case ApprovalRejected => "approval.rejected"
    case StepStarted => "step.started"
    case StepSuspended => "step.suspended"
    case StepResumed => "step.resumed"
    case StepCompleted => "step.completed"
    case StepFailed => "step.failed"
    case ToolInvoked => "tool.invoked"
    case Other(name) => name
  }

  function KindOf(name: string): (k: Kind)
    ensures NameOf(k) == name
  {
    if name == "run.requested" then RunRequested
    else if name == "run.cancelled" then RunCancelled
    else if name == "run.completed" then RunCompleted
    else if name == "run.failed" then RunFailed
    else if name == "policy.decision" then PolicyDecision
    else if name == "approval.granted" then ApprovalGranted
    else if name == "approval.rejected" then ApprovalRejected
    else if name == "step.started" then StepStarted
    else if name == "step.suspended" then StepSuspended
    else if name == "step.resumed" then StepResumed
    else if name == "step.completed" then StepCompleted
    else if name == "step.failed" then StepFailed
    else if name == "tool.invoked" then ToolInvoked
    else Other(name)
  }

  predicate DecisionKind(k: Kind) {
    k.ApprovalGranted? || k.ApprovalRejected?
  }

  /** TERMINAL_EVENT_TYPES: what closes a stream. */
  predicate TerminalEvent(k: Kind) {
    k.RunCompleted? || k.RunFailed? || k.RunCancelled?
  }

  /** What append_step_event admits: everything outside the reserved vocabulary. */
  predicate StepKind(k: Kind) {
    && !k.RunRequested? && !k.RunCancelled? && !k.RunCompleted? && !k.RunFailed?
    && !k.PolicyDecision? && !DecisionKind(k)
  }

  /** payload_ref, standing for the immutable object it names. A step.suspended payload is the
      list of call ids that were pending; every other payload is opaque. */
  datatype Payload = NoPayload | PendingCalls(ids: seq<string>) | Ref(name: string)

  /** A history variable, not a column: which transaction wrote the row. No function branches on it. */
  datatype Writer =
    | ByLease(step: StepId, epoch: nat)
    | ByApi
    | ByDecision(suspension: nat, call: string, cycle: nat)

  datatype Event = Event(run: RunId, seqNo: nat, kind: Kind, step: Option<StepId>,
                         key: Option<string>, payload: Payload, writer: Writer)

  /** The three tables, events in commit order, and the database clock. */
  datatype Db = Db(runs: map<RunId, Run>, steps: map<StepId, Step>, events: seq<Event>, now: int)

  const EMPTY: Db := Db(map[], map[], [], 0)

  // ----- queries ------------------------------------------------------------------------

  /** SELECT ... WHERE run_id = run, in commit order. */
  function RunLog(events: seq<Event>, run: RunId): (log: seq<Event>)
    ensures forall i :: 0 <= i < |log| ==> log[i] in events && log[i].run == run
  {
    if events == [] then []
    else
      var rest := RunLog(events[..|events| - 1], run);
      if events[|events| - 1].run == run then rest + [events[|events| - 1]] else rest
  }

  predicate IsSuspension(e: Event, step: StepId) {
    e.kind.StepSuspended? && e.step == Some(step)
  }

  /** WHERE step_id = step AND type = 'step.suspended', in commit order. */
  function Suspensions(events: seq<Event>, step: StepId): (log: seq<Event>)
    ensures forall i :: 0 <= i < |log| ==> log[i] in events && IsSuspension(log[i], step)
  {
    if events == [] then []
    else
      var rest := Suspensions(events[..|events| - 1], step);
      if IsSuspension(events[|events| - 1], step) then rest + [events[|events| - 1]] else rest
  }

  /** coalesce(max(seq), 0). */
  function MaxSeq(log: seq<Event>): (m: nat)
    ensures forall i :: 0 <= i < |log| ==> log[i].seqNo <= m
  {
    if log == [] then 0
    else
      var m := MaxSeq(log[..|log| - 1]);
      if log[|log| - 1].seqNo > m then log[|log| - 1].seqNo else m
  }

  /** `<suspension_seq>:<call_id>`. */
  function DecisionPrefix(suspension: nat): string {
    Numeral(suspension) + ":"
  }

  function DecisionKey(suspension: nat, call: string): string {
    DecisionPrefix(suspension) + call
  }

  predicate HasKey(events: seq<Event>, run: RunId, key: string) {
    exists i :: 0 <= i < |events| && events[i].run == run && DecisionKind(events[i].kind)
                && events[i].key == Some(key)
  }

  predicate ToolKeyTaken(events: seq<Event>, run: RunId, key: string) {
    exists i :: 0 <= i < |events| && events[i].run == run && events[i].kind.ToolInvoked?
                && events[i].key == Some(key)
  }

  predicate HasFailed(events: seq<Event>, step: StepId) {
    exists i :: 0 <= i < |events| && events[i].kind.StepFailed? && events[i].step == Some(step)
  }

  // ----- appending one row --------------------------------------------------------------

  lemma RunLogSnoc(events: seq<Event>, e: Event, run: RunId)
    ensures RunLog(events + [e], run) == RunLog(events, run) + if e.run == run then [e] else []
  {
    assert (events + [e])[..|events|] == events;
  }

  lemma SuspensionsSnoc(events: seq<Event>, e: Event, step: StepId)
    ensures Suspensions(events + [e], step)
            == Suspensions(events, step) + if IsSuspension(e, step) then [e] else []
  {
    assert (events + [e])[..|events|] == events;
  }
}
