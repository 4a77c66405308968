// Tool invocations in every reachable state: each is recorded once, whichever body records it.
module Invocations {
  import opened EventTypes
  import opened Schema
  import opened AppendPaths
  import opened Operations
  import D = DatabaseInvariants
  import opened Effects
  import opened Protocol
  import opened ClaimInvariants
  import opened IdempotencyKeys
  import E = EndedSteps

  /** The row records this call of this step. */
  predicate Records(e: Event, run: RunId, step: StepId, call: string) {
    e.kind.ToolInvoked? && e.run == run && e.step == Some(step) && e.key == Some(InvocationKey(run, step, call))
  }

  /** Every tool.invoked row carries the derived key of a call of its own step. */
  ghost predicate Derived(events: seq<Event>) {
    forall i :: 0 <= i < |events| && events[i].kind.ToolInvoked? ==>
      events[i].step.Some? && exists call :: Records(events[i], events[i].run, events[i].step.value, call)
  }

  lemma OwnInvocation(s: StepId, e: nat, b: Body, choice: Choice)
    ensures var op := BodyOp(s, e, b, choice);
            FencedOp(op) && FencedKind(op).ToolInvoked? ==>
              b.pc.Agent? && choice.Invoke?
              && op == AppendStep(b.run, s, e, ToolInvoked, NoPayload, Some(InvocationKey(b.run, s, choice.call)))
  {
    hide InvocationKey;
  }

  lemma DerivedKept(sys: Sys, a: Action)
    requires Derived(sys.db.events)
    ensures Derived(Act(sys, a).db.events)
  {
    hide Apply, NextBody, BodyOp, InvocationKey;
    if Enabled(sys, a) {
      var op := OpOf(sys, a);
      var rows := OpRows(sys.db, op);
      forall i | 0 <= i < |rows| && rows[i].kind.ToolInvoked?
        ensures rows[i].step.Some? && exists call :: Records(rows[i], rows[i].run, rows[i].step.value, call)
      {
        NewInvocation(sys, a, rows, i);
      }
      assert forall i :: |sys.db.events| <= i < |sys.db.events + rows| ==>
        (sys.db.events + rows)[i] == rows[i - |sys.db.events|];
    }
  }

  lemma NewInvocation(sys: Sys, a: Action, rows: seq<Event>, i: nat)
    requires Enabled(sys, a) && OpAdds(sys.db, OpOf(sys, a), rows) && i < |rows| && rows[i].kind.ToolInvoked?
    requires Apply(sys.db, OpOf(sys, a)).0.events == sys.db.events + rows
    ensures rows[i].step.Some? && exists call :: Records(rows[i], rows[i].run, rows[i].step.value, call)
  {
    hide Apply, NextBody, BodyOp, InvocationKey;
    var op := OpOf(sys, a);
    ActionIssuesOperation(sys, a);
    OnlyFencedInvokes(sys.db, op, rows, i);
    if a.StepBody? {
      OwnInvocation(a.step, a.epoch, sys.bodies[(a.step, a.epoch)], a.choice);
      assert Records(rows[i], rows[i].run, rows[i].step.value, a.choice.call);
    }
  }

  lemma OnlyFencedInvokes(db: Db, op: DbOp, rows: seq<Event>, i: nat)
    requires Issued(db, op) && OpAdds(db, op, rows) && i < |rows| && rows[i].kind.ToolInvoked?
    requires Apply(db, op).0.events == db.events + rows
    ensures FencedOp(op)
  {
    hide Apply;
    var at := |db.events| + i;
    assert Apply(db, op).0.events[at] == rows[i];
    if op.Lifecycle? || op.Start? {
      var added := LifecycleRows(db, op);
    } else if !FencedOp(op) && !op.AppendDecision? {
      NoRows(db, op);
    }
  }

  lemma {:induction false} ReachableInvocations(cfg: Config, actions: seq<Action>)
    ensures Derived(Reach(Initial(cfg), actions).db.events)
  {
    if actions != [] {
      ReachableInvocations(cfg, actions[..|actions| - 1]);
      DerivedKept(Reach(Initial(cfg), actions[..|actions| - 1]), actions[|actions| - 1]);
    }
  }

  /** A logical invocation is recorded at most once, by any worker, under any epoch; and each
      tool.invoked row records one call of one step and no other. */
  lemma RecordedOnce(cfg: Config, actions: seq<Action>, i: nat) returns (call: string)
    requires i < |Reach(Initial(cfg), actions).db.events| && Reach(Initial(cfg), actions).db.events[i].kind.ToolInvoked?
    ensures var events := Reach(Initial(cfg), actions).db.events;
            && events[i].step.Some? && Records(events[i], events[i].run, events[i].step.value, call)
            && (forall run: RunId, step: StepId, other :: Records(events[i], run, step, other) ==>
                  run == events[i].run && events[i].step == Some(step) && other == call)
            && (forall j :: 0 <= j < |events| && Records(events[j], events[i].run, events[i].step.value, call) ==> j == i)
  {
    hide Reach, InvocationKey;
    ReachableInvocations(cfg, actions);
    ReachableClaims(cfg, actions);
    var events := Reach(Initial(cfg), actions).db.events;
    call :| Records(events[i], events[i].run, events[i].step.value, call);
    forall run: RunId, step: StepId, other | Records(events[i], run, step, other) ensures other == call {
      KeyDetermines(run, step, other, events[i].run, events[i].step.value, call);
    }
    UniqueRecord(Reach(Initial(cfg), actions).db, i, call);
  }

  lemma UniqueRecord(db: Db, i: nat, call: string)
    requires D.Inv(db) && i < |db.events| && db.events[i].step.Some?
    requires Records(db.events[i], db.events[i].run, db.events[i].step.value, call)
    ensures forall j :: 0 <= j < |db.events| && Records(db.events[j], db.events[i].run, db.events[i].step.value, call) ==> j == i
  {
    hide InvocationKey, D.Dense, D.EndsOnce, D.Attributed, D.StepShape, D.EndedIsTerminal, D.EpochsOrdered, D.StateFollowsLog,
      D.Referential;
    assert D.KeysUnique(db.events);
  }

  /** At an agent's call under a live lease the append commits if and only if no row records that
      call of that step yet; otherwise it changes nothing and the body goes on to terminate the step. */
  lemma InvocationAdmittedOnce(cfg: Config, actions: seq<Action>, s: StepId, e: nat, call: string)
    requires var sys := Reach(Initial(cfg), actions);
             && Enabled(sys, StepBody(s, e, Invoke(call))) && sys.bodies[(s, e)].pc.Agent? && Fence(sys.db, s, e)
    ensures var sys, after := Reach(Initial(cfg), actions), Act(Reach(Initial(cfg), actions), StepBody(s, e, Invoke(call)));
            var run := sys.db.steps[s].run;
            && run in sys.db.runs
            && if exists i :: 0 <= i < |sys.db.events| && Records(sys.db.events[i], run, s, call)
               then after == sys.(bodies := sys.bodies[(s, e) := Goto(sys.bodies[(s, e)], Terminating)])
               else
                 && after.bodies == sys.bodies
                 && after.db.events == sys.db.events
                    + [Event(run, sys.db.runs[run].nextSeq + 1, ToolInvoked, Some(s), Some(InvocationKey(run, s, call)),
                             NoPayload, ByLease(s, e))]
  {
    hide Reach, InvocationKey, Act;
    ReachableInvocations(cfg, actions);
    ReachableClaims(cfg, actions);
    var sys := Reach(Initial(cfg), actions);
    InvokingFacts(sys, s, e);
    TakenExactly(sys.db.events, sys.db.steps[s].run, s, call);
    InvokeActs(sys, s, e, call);
  }

  lemma InvokingFacts(sys: Sys, s: StepId, e: nat)
    requires ClaimInv(sys) && (s, e) in sys.bodies
    ensures s in sys.db.steps && sys.bodies[(s, e)].run == sys.db.steps[s].run && sys.db.steps[s].run in sys.db.runs
  {
    hide OneStepInFlight, OneStepPerRun, OwnerClaimedLast, D.Dense, D.EndsOnce, D.KeysUnique, D.Attributed, D.StepShape,
      D.EndedIsTerminal, D.EpochsOrdered, D.StateFollowsLog;
    BodyMatched(sys, s, e);
  }

  /** The index refuses a key exactly when a row records the call. */
  lemma TakenExactly(events: seq<Event>, run: RunId, s: StepId, call: string)
    requires Derived(events)
    ensures ToolKeyTaken(events, run, InvocationKey(run, s, call))
            <==> exists i :: 0 <= i < |events| && Records(events[i], run, s, call)
  {
    hide InvocationKey;
    forall i | 0 <= i < |events| && events[i].kind.ToolInvoked? && events[i].run == run
               && events[i].key == Some(InvocationKey(run, s, call))
      ensures Records(events[i], run, s, call)
    {
      var other :| Records(events[i], run, events[i].step.value, other);
      KeyDetermines(run, s, call, run, events[i].step.value, other);
    }
  }

  lemma InvokeActs(sys: Sys, s: StepId, e: nat, call: string)
    requires Enabled(sys, StepBody(s, e, Invoke(call))) && sys.bodies[(s, e)].pc.Agent? && Fence(sys.db, s, e)
    requires sys.bodies[(s, e)].run == sys.db.steps[s].run && sys.db.steps[s].run in sys.db.runs
    ensures var run := sys.db.steps[s].run;
            var key := InvocationKey(run, s, call);
            var after := Act(sys, StepBody(s, e, Invoke(call)));
            if ToolKeyTaken(sys.db.events, run, key)
            then after == sys.(bodies := sys.bodies[(s, e) := Goto(sys.bodies[(s, e)], Terminating)])
            else
              && after.bodies == sys.bodies
              && after.db.events == sys.db.events
                 + [Event(run, sys.db.runs[run].nextSeq + 1, ToolInvoked, Some(s), Some(key), NoPayload, ByLease(s, e))]
  {
    hide InvocationKey, ToolKeyTaken;
    assert sys.bodies[(s, e) := sys.bodies[(s, e)]] == sys.bodies;
  }

  /** A repeated invocation ends the step for good: once the body has terminated it, nothing that
      happens later claims the step again. */
  lemma RepeatEndsTheStep(cfg: Config, actions: seq<Action>, n: nat, s: StepId, e: nat, call: string, i: nat)
    requires n + 2 <= |actions| && actions[n] == StepBody(s, e, Invoke(call)) && actions[n + 1] == StepBody(s, e, Go)
    requires var sys := Reach(Initial(cfg), actions[..n]);
             && Enabled(sys, actions[n]) && sys.bodies[(s, e)].pc.Agent? && Fence(sys.db, s, e)
             && i < |sys.db.events| && Records(sys.db.events[i], sys.db.steps[s].run, s, call)
    ensures var after := Reach(Initial(cfg), actions).db;
            && s in after.steps && E.Ended(after.steps[s].state) && after.steps[s].epoch == e
            && forall pool :: !Claimable(after, s, pool)
  {
    hide Act, Reach, InvocationKey;
    var sys := Reach(Initial(cfg), actions[..n]);
    InvocationAdmittedOnce(cfg, actions[..n], s, e, call);
    ReachStep(cfg, actions, n);
    ReachStep(cfg, actions, n + 1);
    TerminateActs(Reach(Initial(cfg), actions[..n + 1]), s, e);
    E.EndedForGood(cfg, actions, n + 2, s);
  }

  lemma TerminateActs(sys: Sys, s: StepId, e: nat)
    requires Enabled(sys, StepBody(s, e, Go)) && sys.bodies[(s, e)].pc.Terminating? && sys.db.steps[s].epoch == e
    ensures var after := Act(sys, StepBody(s, e, Go)).db;
            s in after.steps && after.steps[s].state.Faulted? && after.steps[s].epoch == e
  {
  }
}
