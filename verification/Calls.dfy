// The append functions take strings; the transition system takes kinds. Every call of the former
// is an operation of the latter that its path admits, or a refusal that changes nothing.
module Calls {
  import opened EventTypes
  import opened Schema
  import opened AppendPaths
  import opened Operations

  /** A call is some issued operation with the same effect and reply, or it is refused. */
  ghost predicate IsOperation(db: Db, result: (Db, Reply), op: DbOp) {
    if op.Nothing? then result.0 == db && result.1.Refused? else Issued(db, op) && result == Apply(db, op)
  }

  lemma StoredKind(path: Path, raw: Option<string>)
    requires TypeGate(path, raw).Admit?
    ensures PathOf(KindOf(TypeGate(path, raw).stored)) == path
  {
    hide TypeGate;
    StoredTypeIsCanonical(path, raw);
    OwnerIsPathOf(TypeGate(path, raw).stored);
  }

  /** The path that appends a kind. */
  function PathOf(kind: Kind): Path {
    if kind.PolicyDecision? then PolicyPath
    else if kind.RunRequested? || kind.RunCancelled? then LifecyclePath
    else if kind.RunCompleted? || kind.RunFailed? then TerminalPath
    else if DecisionKind(kind) then DecisionPath
    else StepPath
  }

  lemma OwnerIsPathOf(name: string)
    ensures PathOf(KindOf(name)) == Owner(name)
  {
    var kind := KindOf(name);
    assert NameOf(kind) == name;
    if PathOf(kind).StepPath? {
      assert name != RESERVED;
      assert name !in RUN_LIFECYCLE;
      assert name !in TERMINAL_APPEND;
      assert name !in DECISIONS;
    }
  }

  lemma StepCall(db: Db, run: RunId, step: Option<StepId>, epoch: nat, raw: Option<string>, payload: Payload,
                 key: Option<string>)
    returns (op: DbOp)
    requires raw.Some? ==> Canonical(raw.value) != "step.started"
    ensures IsOperation(db, AppendStepEvent(db, run, step, epoch, raw, payload, key), op)
    ensures op.Nothing? || (op.AppendStep? && raw.Some? && NameOf(op.kind) == Canonical(raw.value))
  {
    if TypeGate(StepPath, raw).Admit? && step.Some? {
      StoredKind(StepPath, raw);
      op := AppendStep(run, step.value, epoch, KindOf(TypeGate(StepPath, raw).stored), payload, key);
    } else {
      op := Nothing;
    }
  }

  lemma TerminalCall(db: Db, run: RunId, step: StepId, epoch: nat, raw: Option<string>, payload: Payload)
    returns (op: DbOp)
    ensures IsOperation(db, AppendRunTerminal(db, run, step, epoch, raw, payload), op)
    ensures op.Nothing? || (op.AppendTerminal? && raw.Some? && (op.completed <==> Lower(raw.value) == "run.completed"))
  {
    if TypeGate(TerminalPath, raw).Admit? {
      StoredKind(TerminalPath, raw);
      op := AppendTerminal(run, step, epoch, KindOf(TypeGate(TerminalPath, raw).stored).RunCompleted?, payload);
    } else {
      op := Nothing;
    }
  }

  lemma LifecycleCall(db: Db, run: RunId, raw: Option<string>, payload: Payload) returns (op: DbOp)
    ensures IsOperation(db, AppendRunEvent(db, run, raw, payload), op)
    ensures op.Nothing? || (op.Lifecycle? && raw.Some? && NameOf(op.kind) == Canonical(raw.value))
  {
    if TypeGate(LifecyclePath, raw).Admit? {
      StoredKind(LifecyclePath, raw);
      op := Lifecycle(run, KindOf(TypeGate(LifecyclePath, raw).stored), payload);
    } else {
      op := Nothing;
    }
  }

  lemma DecisionCall(db: Db, run: RunId, step: StepId, calls: seq<Option<string>>, decisions: seq<Option<string>>,
                     suspension: nat)
    returns (op: DbOp)
    ensures IsOperation(db, AppendApprovalDecision(db, run, step, calls, decisions, suspension), op)
    ensures op.Nothing?
            || (op.AppendDecision? && |op.pairs| == |calls| == |decisions|
                && forall i :: 0 <= i < |calls| ==>
                     && calls[i] == Some(op.pairs[i].call) && op.pairs[i].call != ""
                     && decisions[i].Some?
                     && Lower(decisions[i].value) == (if op.pairs[i].granted then "approval.granted" else "approval.rejected"))
  {
    op := Nothing;
    if calls != [] && |decisions| == |calls| && PairError(calls, decisions, 0).None? {
      op := AppendDecision(run, step, PairsOf(calls, decisions), suspension);
      forall i | 0 <= i < |calls|
        ensures calls[i].Some? && calls[i].value != "" && decisions[i].Some? && Lower(decisions[i].value) in DECISIONS
      {
        PairsWellFormed(calls, decisions, 0, i);
      }
    }
  }
}
