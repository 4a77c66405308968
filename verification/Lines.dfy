// The rows one claim writes, as lines: a run of them, numbered where the run's log stands.
module Lines {
  import opened EventTypes
  import opened Schema
  import opened AppendPaths
  import M = Admission

  datatype Line = Line(kind: Kind, payload: Payload, key: Option<string>)

  function Plainly(kind: Kind): Line {
    Line(kind, NoPayload, None)
  }

  /** An ending belongs to the run and to no step. */
  function RowAt(run: RunId, step: StepId, epoch: nat, n: nat, line: Line): Event {
    Event(run, n, line.kind, if line.kind == RunCompleted || line.kind == RunFailed then None else Some(step), line.key,
          line.payload, ByLease(step, epoch))
  }

  function Rows(run: RunId, step: StepId, epoch: nat, n: nat, lines: seq<Line>): (rows: seq<Event>)
    ensures |rows| == |lines|
    ensures forall i :: 0 <= i < |lines| ==> rows[i] == RowAt(run, step, epoch, n + i + 1, lines[i])
  {
    seq(|lines|, i requires 0 <= i < |lines| => RowAt(run, step, epoch, n + i + 1, lines[i]))
  }

  /** Exactly these lines were written, the run was left in this state, and nothing else moved. */
  ghost predicate Wrote(before: Db, after: Db, run: RunId, step: StepId, epoch: nat, lines: seq<Line>, state: RunState) {
    && run in before.runs && after.steps == before.steps && after.now == before.now
    && after.events == before.events + Rows(run, step, epoch, before.runs[run].nextSeq, lines)
    && after.runs == before.runs[run := Run(state, before.runs[run].nextSeq + |lines|)]
  }

  lemma WroteNothing(db: Db, run: RunId, step: StepId, epoch: nat)
    requires run in db.runs
    ensures Wrote(db, db, run, step, epoch, [], db.runs[run].state)
  {
    assert db.runs[run := Run(db.runs[run].state, db.runs[run].nextSeq + 0)] == db.runs;
  }

  lemma WroteThen(a: Db, b: Db, c: Db, run: RunId, step: StepId, epoch: nat, first: seq<Line>, more: seq<Line>,
                  mid: RunState, end: RunState)
    requires Wrote(a, b, run, step, epoch, first, mid) && Wrote(b, c, run, step, epoch, more, end)
    ensures Wrote(a, c, run, step, epoch, first + more, end)
  {
    var n := a.runs[run].nextSeq;
    assert Rows(run, step, epoch, n, first + more) == Rows(run, step, epoch, n, first) + Rows(run, step, epoch, n + |first|, more);
  }

  lemma FenceOn(before: Db, after: Db, run: RunId, step: StepId, epoch: nat, lines: seq<Line>, state: RunState)
    requires Wrote(before, after, run, step, epoch, lines, state)
    ensures forall s, e :: Fence(after, s, e) <==> Fence(before, s, e)
    ensures run in after.runs && after.runs[run].state == state
  {
  }

  // ----- what a run's state does to them ------------------------------------------------

  function Begun(state: RunState): RunState {
    if state == Requested then Running else state
  }

  /** The ending commits only while the run is running. */
  function Closing(state: RunState, completed: bool): seq<Line> {
    if state == Running then [Plainly(if completed then RunCompleted else RunFailed)] else []
  }

  function Closed(state: RunState, completed: bool): RunState {
    if state == Running then (if completed then Completed else Failed) else state
  }

  // ----- one transaction ----------------------------------------------------------------

  lemma AppendWrites(db: Db, run: RunId, step: StepId, epoch: nat, kind: Kind, payload: Payload, key: Option<string>)
    requires Fence(db, step, epoch) && db.steps[step].run == run && run in db.runs
    requires !kind.ToolInvoked? && !kind.RunCompleted? && !kind.RunFailed?
    ensures var (after, reply) := AppendStepKind(db, run, step, epoch, kind, payload, key);
            reply.Committed? && Wrote(db, after, run, step, epoch, [Line(kind, payload, key)], db.runs[run].state)
  {
    M.KindExactly(db, run, step, epoch, kind, payload, key);
  }

  lemma EndingWrites(db: Db, run: RunId, step: StepId, epoch: nat, completed: bool)
    requires Fence(db, step, epoch) && db.steps[step].run == run && run in db.runs
    ensures var (after, reply) := AppendTerminalKind(db, run, step, epoch, completed, NoPayload);
            && (reply.Committed? <==> db.runs[run].state == Running)
            && Wrote(db, after, run, step, epoch, Closing(db.runs[run].state, completed), Closed(db.runs[run].state, completed))
  {
    M.EndingExactly(db, run, step, epoch, completed, NoPayload);
    WroteNothing(db, run, step, epoch);
  }

  lemma StartWrites(db: Db, run: RunId, step: StepId, epoch: nat, payload: Payload)
    requires Fence(db, step, epoch) && db.steps[step].run == run && run in db.runs
    ensures var (after, reply) := CommitStepStarted(db, run, step, epoch, payload);
            reply.Committed? && Wrote(db, after, run, step, epoch, [Line(StepStarted, payload, None)], Begun(db.runs[run].state))
  {
    M.StartedExactly(db, run, step, epoch, payload);
  }
  /** A tool.invoked commits unless its key is taken. */
  lemma InvokeWrites(db: Db, run: RunId, step: StepId, epoch: nat, key: string)
    requires Fence(db, step, epoch) && db.steps[step].run == run && run in db.runs
    ensures var (after, reply) := AppendStepKind(db, run, step, epoch, ToolInvoked, NoPayload, Some(key));
            if ToolKeyTaken(db.events, run, key) then reply == Refused(UniqueViolation) && after == db
            else reply.Committed?
                 && Wrote(db, after, run, step, epoch, [Line(ToolInvoked, NoPayload, Some(key))], db.runs[run].state)
  {
    M.KindExactly(db, run, step, epoch, ToolInvoked, NoPayload, Some(key));
  }

  /** The keys taken after the lines are those taken before and theirs. */
  lemma TakenAfter(before: Db, after: Db, run: RunId, step: StepId, epoch: nat, lines: seq<Line>, state: RunState, key: string)
    requires Wrote(before, after, run, step, epoch, lines, state)
    ensures ToolKeyTaken(after.events, run, key)
            <==> ToolKeyTaken(before.events, run, key)
                 || exists i :: 0 <= i < |lines| && lines[i].kind == ToolInvoked && lines[i].key == Some(key)
  {
    var n := |before.events|;
    if ToolKeyTaken(before.events, run, key) {
      var k :| 0 <= k < n && before.events[k].run == run && before.events[k].kind.ToolInvoked? && before.events[k].key == Some(key);
      assert after.events[k] == before.events[k];
    }
    forall i | 0 <= i < |lines| && lines[i].kind == ToolInvoked && lines[i].key == Some(key)
      ensures ToolKeyTaken(after.events, run, key)
    {
      assert after.events[n + i].kind.ToolInvoked?;
    }
    if ToolKeyTaken(after.events, run, key) {
      var k :| 0 <= k < |after.events| && after.events[k].run == run && after.events[k].kind.ToolInvoked?
               && after.events[k].key == Some(key);
      if k >= n {
        assert lines[k - n].kind == ToolInvoked;
      } else {
        assert before.events[k] == after.events[k];
      }
    }
  }
}
