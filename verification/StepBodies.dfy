// The step bodies in their own form: straight-line code over the store, one call after another.
// Each is proved to be a run of the transition system's body, whatever connection is lost before or
// after whichever commit, so what holds of every interleaving holds of it, cut off anywhere.
module StepBodies {
  import opened EventTypes
  import opened Schema
  import opened AppendPaths
  import opened Operations
  import opened Effects
  import opened Protocol
  import opened IdempotencyKeys
  import opened DecisionKeys
  import opened EventStore
  import opened Lines
  import D = DatabaseInvariants
  import P = Persistence

  /** One step of the body, alone. */
  function OneStep(cfg: Config, s: StepId, e: nat, at: (Db, Body), choice: Choice): (Db, Body) {
    if at.1.pc.Done? || s !in at.0.steps then at
    else
      var (db, reply) := Apply(at.0, BodyOp(s, e, at.1, choice));
      (db, NextBody(at.0, cfg, s, at.1, choice, reply))
  }

  /** The tables and the body after a script of environment choices. */
  function Alone(db: Db, cfg: Config, s: StepId, e: nat, b: Body, script: seq<Choice>): (Db, Body) {
    if script == [] then (db, b)
    else OneStep(cfg, s, e, Alone(db, cfg, s, e, b, script[..|script| - 1]), script[|script| - 1])
  }

  /** The script as actions of the system. */
  function ActionsOf(s: StepId, e: nat, script: seq<Choice>): (actions: seq<Action>)
    ensures |actions| == |script|
  {
    if script == [] then []
    else ActionsOf(s, e, script[..|script| - 1]) + [StepBody(s, e, script[|script| - 1])]
  }

  predicate Alive(sys: Sys, s: StepId, e: nat) {
    (s, e) in sys.bodies && s in sys.db.steps && sys.bodies[(s, e)].worker in sys.workers
    && !sys.workers[sys.bodies[(s, e)].worker].doing.Dead?
  }

  lemma OneStepIsAct(sys: Sys, s: StepId, e: nat, choice: Choice)
    requires Alive(sys, s, e)
    ensures var (db, b) := OneStep(sys.cfg, s, e, (sys.db, sys.bodies[(s, e)]), choice);
            && Act(sys, StepBody(s, e, choice)) == Sys(db, sys.bodies[(s, e) := b], sys.workers, sys.cfg)
            && Alive(Act(sys, StepBody(s, e, choice)), s, e)
  {
    hide Apply, NextBody, BodyOp;
    var b := sys.bodies[(s, e)];
    if b.pc.Done? {
      assert sys.bodies[(s, e) := b] == sys.bodies;
    } else {
      RowEffect(sys.db, BodyOp(s, e, b, choice), s);
      WorkerKept(sys.db, sys.cfg, s, b, choice, Apply(sys.db, BodyOp(s, e, b, choice)).1);
    }
  }

  /** A body run alone is the system in which only that body acts. */
  lemma {:induction false} AloneIsReach(sys: Sys, s: StepId, e: nat, script: seq<Choice>)
    requires Alive(sys, s, e)
    ensures var (db, b) := Alone(sys.db, sys.cfg, s, e, sys.bodies[(s, e)], script);
            var after := Reach(sys, ActionsOf(s, e, script));
            after == Sys(db, sys.bodies[(s, e) := b], sys.workers, sys.cfg) && Alive(after, s, e)
  {
    if script == [] {
      assert sys.bodies[(s, e) := sys.bodies[(s, e)]] == sys.bodies;
    } else {
      hide Act, OneStep, Alive;
      var k := |script| - 1;
      AloneIsReach(sys, s, e, script[..k]);
      var actions := ActionsOf(s, e, script);
      assert actions[..k] == ActionsOf(s, e, script[..k]) && actions[k] == StepBody(s, e, script[k]);
      var before := Reach(sys, actions[..k]);
      OneStepIsAct(before, s, e, script[k]);
      var next := OneStep(sys.cfg, s, e, (before.db, before.bodies[(s, e)]), script[k]).1;
      assert before.bodies[(s, e) := next] == sys.bodies[(s, e) := next];
    }
  }

  lemma WorkerKept(db: Db, cfg: Config, s: StepId, b: Body, choice: Choice, reply: Reply)
    requires s in db.steps && !b.pc.Done?
    ensures SameClaim(b, NextBody(db, cfg, s, b, choice, reply))
  {
    hide OnException, ProceedStart, ProceedResume, ProceedWork, ProceedAnalysis;
  }

  // ----- running a body -----------------------------------------------------------------

  /** What befalls a statement: nothing, an exception before it commits (a LookupError or another), or
      one after. */
  datatype Fault = Fine | Before(lookup: bool) | After

  /** How a statement comes back. */
  datatype Answer = Replied(reply: Reply) | Threw(lookup: bool)

  function AnswerOf(fault: Fault, reply: Reply): Answer {
    match fault
    case Fine => Replied(reply)
    case Before(lookup) => Threw(lookup)
    case After => Threw(false)
  }

  /** Whether the agent's run goes on after a call, or which exception it leaves by. */
  datatype Passage = Passed | Thrown(lookup: bool)

  function PassageOf(answer: Answer): Passage {
    if Landed(answer) then Passed else if answer.Threw? then Thrown(answer.lookup) else Thrown(false)
  }

  predicate Landed(answer: Answer) {
    answer.Replied? && answer.reply.Committed?
  }

  predicate Undisturbed(choice: Choice) {
    !choice.Lost? && !choice.LostReply?
  }

  /** The environment's choice, under what befell the statement. */
  function Under(fault: Fault, choice: Choice): Choice {
    match fault
    case Fine => choice
    case Before(lookup) => Lost(lookup)
    case After => LostReply
  }

  predicate Suffered(fault: Fault, choice: Choice) {
    match fault
    case Fine => Undisturbed(choice)
    case Before(lookup) => choice == Lost(lookup)
    case After => choice == LostReply
  }

  /** Nothing was lost on the way: every statement ran and every reply arrived. */
  ghost predicate Smooth(script: seq<Choice>) {
    forall i :: 0 <= i < |script| ==> Undisturbed(script[i])
  }

  /** Where an exception leads, and nothing else leads back from. */
  predicate Failing(pc: Pc) {
    pc.FailEvent? || pc.RefuseEvent? || pc.RefuseTerminal? || pc.AnalysisFailEvent? || pc.AnalysisFailTerminal?
    || pc == Done(Raised)
  }

  lemma FailingStays(db: Db, cfg: Config, s: StepId, b: Body, choice: Choice, reply: Reply)
    requires s in db.steps && !b.pc.Done? && (Failing(b.pc) || !Undisturbed(choice))
    ensures Failing(NextBody(db, cfg, s, b, choice, reply).pc)
  {
    hide Proceed, OnException;
    ThrownFails(b);
    if Failing(b.pc) || (b.pc.Holding? && choice.LostReply?) {
      ProceedFails(db, cfg, s, b, choice, reply);
    }
  }

  lemma ProceedFails(db: Db, cfg: Config, s: StepId, b: Body, choice: Choice, reply: Reply)
    requires s in db.steps && !b.pc.Done? && (Failing(b.pc) || (b.pc.Holding? && choice.LostReply?))
    ensures Failing(Proceed(db, cfg, s, b, choice, reply).pc)
  {
    hide ProceedStart, ProceedResume, ProceedWork, ProceedAnalysis;
    if b.pc.FailEvent? || b.pc.Holding? {
      WorkFails(b, choice, reply);
    } else if b.pc.AnalysisFailEvent? || b.pc.AnalysisFailTerminal? {
      AnalysisFails(db, s, b, choice, reply);
    } else {
      RefusalFails(db, s, b, reply);
    }
  }

  lemma ThrownFails(b: Body)
    ensures forall lookup :: Failing(OnException(b, lookup))
  {
  }

  lemma WorkFails(b: Body, choice: Choice, reply: Reply)
    requires b.pc.FailEvent? || (b.pc.Holding? && choice.LostReply?)
    ensures ProceedWork(b, choice, reply).pc == Done(Raised)
  {
  }

  lemma AnalysisFails(db: Db, s: StepId, b: Body, choice: Choice, reply: Reply)
    requires s in db.steps && (b.pc.AnalysisFailEvent? || b.pc.AnalysisFailTerminal?)
    ensures Failing(ProceedAnalysis(db, s, b, choice, reply).pc)
  {
  }

  lemma RefusalFails(db: Db, s: StepId, b: Body, reply: Reply)
    requires s in db.steps && (b.pc.RefuseEvent? || b.pc.RefuseTerminal?)
    ensures Failing(ProceedResume(db, s, b, reply).pc)
  {
  }

  lemma LostDoesNothing(db: Db, s: StepId, e: nat, b: Body, lookup: bool)
    ensures Apply(db, BodyOp(s, e, b, Lost(lookup))) == (db, Rows(0))
  {
  }

  /** Outside the agent a body's transaction is fixed by where it stands. */
  lemma OpSettled(s: StepId, e: nat, b: Body, choice: Choice)
    requires Undisturbed(choice)
    ensures !b.pc.Agent? ==> BodyOp(s, e, b, LostReply) == BodyOp(s, e, b, choice)
    ensures b.pc.Agent? ==> BodyOp(s, e, b, LostReply).Nothing?
  {
  }

  lemma HoldingLost(db: Db, cfg: Config, s: StepId, b: Body, reply: Reply)
    requires s in db.steps && b.pc.Holding?
    ensures NextBody(db, cfg, s, b, LostReply, reply).pc == Done(Raised)
  {
  }

  datatype Ending = Answers | Asks(ids: seq<string>) | Fails

  /** What the agent does: a series of calls through the tool stack, and how it ends. */
  datatype AgentRun = AgentRun(calls: seq<Choice>, ending: Ending)

  predicate ToolCall(c: Choice) {
    c.Invoke? || c.Invoked? || c.RecordDecision? || c.Unrecorded?
  }

  predicate AgentCalls(agent: AgentRun) {
    forall i :: 0 <= i < |agent.calls| ==> ToolCall(agent.calls[i])
  }

  /** The tool calls of a script, in order. */
  function Tools(script: seq<Choice>): seq<Choice> {
    if script == [] then []
    else Tools(script[..|script| - 1]) + if ToolCall(script[|script| - 1]) then [script[|script| - 1]] else []
  }

  /** The calls made since are the agent's own first ones, in its order. */
  predicate MadeSome(before: seq<Choice>, made: seq<Choice>, calls: seq<Choice>) {
    before <= made && made[|before|..] <= calls
  }

  lemma MadeFirst(before: seq<Choice>, made: seq<Choice>, calls: seq<Choice>, k: nat)
    requires k <= |calls| && made == before + calls[..k]
    ensures MadeSome(before, made, calls)
  {
  }

  /** Nothing went the other way: every read admitted, every input was there. */
  predicate Clean(script: seq<Choice>) {
    forall i :: 0 <= i < |script| ==> !script[i].Otherwise?
  }

  lemma NotedBy(script: seq<Choice>, choice: Choice, fate: Fault)
    requires Undisturbed(choice)
    ensures var after := script + [Under(fate, choice)];
            && Tools(after) == Tools(script) + (if fate.Fine? && ToolCall(choice) then [choice] else [])
            && (Clean(after) <==> Clean(script) && !(fate.Fine? && choice.Otherwise?))
  {
    var after := script + [Under(fate, choice)];
    assert after[..|script|] == script && after[|script|] == Under(fate, choice);
    assert forall i :: 0 <= i < |script| ==> after[i] == script[i];
  }

  /** What a whole body leaves: its lines, the run's state, the step's row, and how it returns. */
  datatype Trace = Trace(lines: seq<Line>, state: RunState, row: Step, outcome: Outcome)

  /** One claim's body and the store it works on. fates says what befalls its statements, the i-th of
      them at i; body and script are the transition system's view of where it stands. */
  class Runner {
    const store: Store
    const cfg: Config
    const worker: WorkerId
    const run: RunId
    const step: StepId
    const epoch: nat
    const fates: nat -> Fault
    var at: nat
    ghost const start: Db
    ghost const first: Body
    ghost var body: Body
    ghost var script: seq<Choice>

    ghost predicate Known(db: Db, b: Body) {
      step in db.steps && db.steps[step].run == run && b.run == run && b.worker == worker
    }

    ghost predicate Faithful(script: seq<Choice>, pc: Pc) {
      && (forall i :: 0 <= i < |script| ==> Suffered(fates(i), script[i]))
      && (Smooth(script) || Failing(pc))
    }

    ghost predicate Valid()
      reads this, store
    {
      && Known(store.View(), body)
      && Alone(start, cfg, step, epoch, first, script) == (store.View(), body)
      && at == |script| && Faithful(script, body.pc)
    }

    constructor (store: Store, cfg: Config, worker: WorkerId, run: RunId, step: StepId, epoch: nat, analysis: bool,
                 fates: nat -> Fault)
      requires step in store.steps && store.steps[step].run == run
      ensures Valid() && this.store == store && script == [] && body == first && start == store.View()
      ensures body == Body(worker, run, analysis, if analysis then ReadFailed else ReadCycles, 0, false, [], 0, 0, map[], [], false)
      ensures this.cfg == cfg && this.step == step && this.epoch == epoch && this.run == run && this.fates == fates
    {
      this.store, this.cfg, this.worker, this.run, this.step, this.epoch := store, cfg, worker, run, step, epoch;
      this.fates, at := fates, 0;
      start := store.View();
      first := Body(worker, run, analysis, if analysis then ReadFailed else ReadCycles, 0, false, [], 0, 0, map[], [], false);
      body := Body(worker, run, analysis, if analysis then ReadFailed else ReadCycles, 0, false, [], 0, 0, map[], [], false);
      script := [];
    }

    /** Whatever else a statement did, it made no tool call and took no other way. */
    ghost predicate Plain(before: seq<Choice>)
      reads this
    {
      Tools(script) == Tools(before) && (Clean(before) ==> Clean(script))
    }

    /** Nothing befalls any statement, and the claim has its lease. */
    ghost predicate Sound()
      reads store
    {
      (forall i: nat :: fates(i).Fine?) && Fence(store.View(), step, epoch) && run in store.runs
    }

    /** These lines, and the run left in this state, and nothing else. */
    ghost predicate Logged(before: Db, lines: seq<Line>, state: RunState)
      reads store
    {
      Wrote(before, store.View(), run, step, epoch, lines, state)
    }

    /** The same, under a claim that goes on having its lease. */
    ghost predicate Writes(before: Db, lines: seq<Line>, state: RunState)
      reads store
    {
      Sound() && Logged(before, lines, state) && StateOf(store.View()) == state && store.steps == before.steps
    }

    ghost function StateOf(db: Db): RunState {
      if run in db.runs then db.runs[run].state else Requested
    }

    lemma WritesThen(a: Db, b: Db, first: seq<Line>, more: seq<Line>, mid: RunState, end: RunState)
      requires Wrote(a, b, run, step, epoch, first, mid) && Writes(b, more, end) && b.steps == a.steps
      ensures Writes(a, first + more, end)
    {
      WroteThen(a, b, store.View(), run, step, epoch, first, more, mid, end);
    }

    lemma StillSound(before: Db, lines: seq<Line>, state: RunState)
      requires Wrote(before, store.View(), run, step, epoch, lines, state)
      ensures run in store.runs && StateOf(store.View()) == state && store.steps == before.steps
      ensures Fence(before, step, epoch) ==> Fence(store.View(), step, epoch)
    {
      FenceOn(before, store.View(), run, step, epoch, lines, state);
    }

    // ----- statements ---------------------------------------------------------------------

    /** The body where its statement leaves it: a reply takes it on, an exception where the handlers
        around the statement take it. */
    ghost predicate Went(db: Db, b: Body, choice: Choice, answer: Answer)
      requires step in db.steps
      reads this
    {
      if answer.Replied? then body == Proceed(db, cfg, step, b, choice, answer.reply)
      else if b.pc.Holding? then body.pc == Done(Raised)
      else body == Goto(b, OnException(b, answer.lookup))
    }

    /** The script and its tool calls after one more statement. */
    ghost predicate Noted(before: seq<Choice>, choice: Choice, answer: Answer)
      reads this
    {
      && |script| == |before| + 1 && (answer.Replied? <==> fates(|before|).Fine?)
      && Tools(script) == Tools(before) + (if answer.Replied? && ToolCall(choice) then [choice] else [])
      && (Clean(script) <==> Clean(before) && !(answer.Replied? && choice.Otherwise?))
    }

    lemma NextFaithful(db: Db, b: Body, c: Choice, reply: Reply)
      requires step in db.steps && !b.pc.Done?
      requires Faithful(script, b.pc) && Suffered(fates(|script|), c)
      ensures Faithful(script + [c], NextBody(db, cfg, step, b, c, reply).pc)
    {
      hide NextBody;
      if Failing(b.pc) || !Undisturbed(c) {
        FailingStays(db, cfg, step, b, c, reply);
      }
    }

    lemma NextWent(db: Db, b: Body, choice: Choice, reply: Reply)
      requires step in db.steps && !b.pc.Done? && Undisturbed(choice)
      ensures var answer, next := AnswerOf(fates(at), reply), NextBody(db, cfg, step, b, Under(fates(at), choice), reply);
              if answer.Replied? then next == Proceed(db, cfg, step, b, choice, answer.reply)
              else if b.pc.Holding? then next.pc == Done(Raised)
              else next == Goto(b, OnException(b, answer.lookup))
    {
      hide Proceed, OnException;
      if b.pc.Holding? {
        HoldingLost(db, cfg, step, b, reply);
        LostHold(b);
      }
    }

    lemma LostHold(b: Body)
      requires b.pc.Holding?
      ensures forall lookup :: OnException(b, lookup) == Done(Raised)
    {
    }

    /** The statement just run was the body's next one, with that reply if it was given one. */
    method Took(ghost before: Db, ghost choice: Choice, ghost reply: Reply) returns (ghost answer: Answer)
      requires Known(before, body) && !body.pc.Done? && Undisturbed(choice) && at == |script| && Faithful(script, body.pc)
      requires Alone(start, cfg, step, epoch, first, script) == (before, body)
      requires (store.View(), reply) == Apply(before, BodyOp(step, epoch, body, Under(fates(at), choice)))
      modifies this`body, this`script, this`at
      ensures Valid() && answer == AnswerOf(fates(old(at)), reply)
      ensures Went(before, old(body), choice, answer) && Noted(old(script), choice, answer)
    {
      hide NextBody, BodyOp, Apply, Faithful, Proceed, OnException, Tools, Clean;
      ghost var c := Under(fates(at), choice);
      answer := AnswerOf(fates(at), reply);
      RowEffect(before, BodyOp(step, epoch, body, c), step);
      WorkerKept(before, cfg, step, body, c, reply);
      NextFaithful(before, body, c, reply);
      NextWent(before, body, choice, reply);
      NotedBy(script, choice, fates(at));
      assert (script + [c])[..|script|] == script;
      body := NextBody(before, cfg, step, body, c, reply);
      script := script + [c];
      at := at + 1;
    }

    /** An exception before the commit leaves the tables as they were. */
    lemma LostIsNothing(db: Db)
      ensures forall lookup :: Apply(db, BodyOp(step, epoch, body, Lost(lookup))) == (db, Rows(0))
    {
      forall lookup ensures Apply(db, BodyOp(step, epoch, body, Lost(lookup))) == (db, Rows(0)) {
        LostDoesNothing(db, step, epoch, body, lookup);
      }
    }

    /** A statement that only reads. */
    method Reading(ghost choice: Choice) returns (answer: Answer)
      requires Valid() && !body.pc.Done? && !body.pc.Holding? && Undisturbed(choice)
      requires BodyOp(step, epoch, body, choice).Nothing?
      modifies this`body, this`script, this`at
      ensures Valid() && Went(store.View(), old(body), choice, answer) && Noted(old(script), choice, answer)
    {
      hide BodyOp, NextBody, Alone, Tools, Clean;
      answer := AnswerOf(fates(at), Rows(0));
      LostIsNothing(store.View());
      OpSettled(step, epoch, body, choice);
      ghost var _ := Took(store.View(), choice, Rows(0));
    }

    /** The row a fenced append of this claim adds. */
    ghost function RowOf(db: Db, kind: Kind, payload: Payload, key: Option<string>): Event
      requires run in db.runs
    {
      Event(run, db.runs[run].nextSeq + 1, kind, if kind.RunCompleted? || kind.RunFailed? then None else Some(step), key,
            payload, ByLease(step, epoch))
    }

    /** One row under a live lease, or nothing; with a reply, one exactly if it says committed. */
    ghost predicate Added(before: Db, kind: Kind, payload: Payload, key: Option<string>, answer: Answer)
      reads store
    {
      && store.steps == before.steps && store.now == before.now && store.runs.Keys == before.runs.Keys
      && (store.events == before.events
          || (&& Fence(before, step, epoch) && run in before.runs
              && store.events == before.events + [RowOf(before, kind, payload, key)]))
      && (answer.Replied? ==> (Landed(answer) <==> store.events != before.events))
    }

    lemma FencedAdds(before: Db, op: DbOp, fate: Fault, reply: Reply)
      requires FencedOp(op) && op.run == run && op.step == step && op.epoch == epoch
      requires op.AppendTerminal? || (FencedKind(op) != RunCompleted && FencedKind(op) != RunFailed)
      requires (store.View(), reply) == if fate.Before? then (before, Rows(0)) else Apply(before, op)
      ensures Added(before, FencedKind(op), op.payload, if op.AppendStep? then op.key else None, AnswerOf(fate, reply))
    {
      hide Apply, Fence;
      if !fate.Before? {
        FencedRows(before, op);
      }
    }

    /** Append one event of step scope. late says whether an exception can follow the commit; where the
        agent runs, one that does is an exception of its next statement. */
    method Append(kind: Kind, payload: Payload, key: Option<string>, late: bool, ghost choice: Choice) returns (answer: Answer)
      requires Valid() && !body.pc.Done? && !body.pc.Holding? && Undisturbed(choice)
      requires !kind.RunCompleted? && !kind.RunFailed? && late == !body.pc.Agent?
      requires BodyOp(step, epoch, body, choice) == AppendStep(run, step, epoch, kind, payload, key)
      modifies this`body, this`script, this`at, store
      ensures Valid() && Went(old(store.View()), old(body), choice, answer) && Noted(old(script), choice, answer)
      ensures AppendLeft(old(store.View()), kind, payload, key, late, answer)
    {
      hide BodyOp, NextBody, Alone, Tools, Clean, Went, Noted, AppendStepKind, AppendLeft;
      ghost var before := store.View();
      var fate, reply := fates(at), Rows(0);
      if fate.Fine? || (fate.After? && late) {
        reply := store.AppendFenced(run, step, epoch, kind, payload, key);
      }
      answer := AnswerOf(fate, reply);
      AppendFacts(before, kind, payload, key, late, fate, reply);
      LostIsNothing(before);
      OpSettled(step, epoch, body, choice);
      ghost var _ := Took(before, choice, reply);
    }

    /** What an append leaves: a row or nothing; under a lease that holds, the row; without one, nothing; and
        when nothing befalls the claim, exactly the line, unless it is an invocation whose key is taken. */
    ghost predicate AppendLeft(before: Db, kind: Kind, payload: Payload, key: Option<string>, late: bool, answer: Answer)
      reads store
    {
      && Added(before, kind, payload, key, answer)
      && (answer.Threw? && !late ==> store.events == before.events)
      && (answer.Replied? && !kind.ToolInvoked? && Fence(before, step, epoch) && run in before.runs ==> Landed(answer))
      && (!Fence(before, step, epoch) ==> store.View() == before)
      && (Fence(before, step, epoch) && run in before.runs && (forall i: nat :: fates(i).Fine?) ==>
            if !kind.ToolInvoked? then Landed(answer) && Writes(before, [Line(kind, payload, key)], StateOf(before))
            else payload == NoPayload && key.Some? ==>
              if ToolKeyTaken(before.events, run, key.value)
              then answer == Replied(Refused(UniqueViolation)) && store.View() == before
              else Landed(answer) && Writes(before, [Line(kind, payload, key)], StateOf(before)))
    }

    /** What the append did to the store, by what befell it. */
    lemma AppendFacts(before: Db, kind: Kind, payload: Payload, key: Option<string>, late: bool, fate: Fault, reply: Reply)
      requires step in before.steps && before.steps[step].run == run && !kind.RunCompleted? && !kind.RunFailed?
      requires (store.View(), reply) == if fate.Fine? || (fate.After? && late)
                                        then AppendStepKind(before, run, step, epoch, kind, payload, key) else (before, Rows(0))
      requires (forall i: nat :: fates(i).Fine?) ==> fate.Fine?
      ensures AppendLeft(before, kind, payload, key, late, AnswerOf(fate, reply))
    {
      hide AppendStepKind, Added, Fence, Writes, ToolKeyTaken;
      var answer := AnswerOf(fate, reply);
      FencedCommits(before, kind, payload, key);
      UnfencedNothing(before, kind, payload, key);
      if fate.Fine? || (fate.After? && late) {
        FencedAdds(before, AppendStep(run, step, epoch, kind, payload, key), fate, reply);
        if fate.Fine? && forall i: nat :: fates(i).Fine? {
          AppendLogs(before, kind, payload, key, answer);
        }
      } else if fate.Before? {
        FencedAdds(before, AppendStep(run, step, epoch, kind, payload, key), fate, reply);
      } else {
        NothingAdded(before, kind, payload, key);
      }
    }

    lemma FencedCommits(before: Db, kind: Kind, payload: Payload, key: Option<string>)
      ensures !kind.ToolInvoked? && Fence(before, step, epoch) && run in before.runs && before.steps[step].run == run ==>
                AppendStepKind(before, run, step, epoch, kind, payload, key).1.Committed?
    {
    }

    lemma AppendLogs(before: Db, kind: Kind, payload: Payload, key: Option<string>, answer: Answer)
      requires step in before.steps && before.steps[step].run == run
      requires !kind.RunCompleted? && !kind.RunFailed?
      requires (forall i: nat :: fates(i).Fine?) ==>
                 && answer.Replied?
                 && (store.View(), answer.reply) == AppendStepKind(before, run, step, epoch, kind, payload, key)
      ensures (forall i: nat :: fates(i).Fine?) && Fence(before, step, epoch) && run in before.runs && !kind.ToolInvoked? ==>
                Landed(answer) && Writes(before, [Line(kind, payload, key)], StateOf(before))
      ensures (forall i: nat :: fates(i).Fine?) && Fence(before, step, epoch) && run in before.runs
              && kind.ToolInvoked? && payload == NoPayload && key.Some? ==>
                if ToolKeyTaken(before.events, run, key.value)
                then answer == Replied(Refused(UniqueViolation)) && store.View() == before
                else Landed(answer) && Writes(before, [Line(kind, payload, key)], StateOf(before))
    {
      hide AppendStepKind, Fence, Wrote, ToolKeyTaken;
      if (forall i: nat :: fates(i).Fine?) && Fence(before, step, epoch) && run in before.runs {
        if !kind.ToolInvoked? {
          AppendWrites(before, run, step, epoch, kind, payload, key);
          StillSound(before, [Line(kind, payload, key)], StateOf(before));
        } else if payload == NoPayload && key.Some? {
          InvokeWrites(before, run, step, epoch, key.value);
          if !ToolKeyTaken(before.events, run, key.value) {
            StillSound(before, [Line(kind, payload, key)], StateOf(before));
          }
        }
      }
    }

    lemma UnfencedNothing(before: Db, kind: Kind, payload: Payload, key: Option<string>)
      ensures !Fence(before, step, epoch) ==> AppendStepKind(before, run, step, epoch, kind, payload, key).0 == before
    {
    }

    lemma NothingAdded(before: Db, kind: Kind, payload: Payload, key: Option<string>)
      requires store.View() == before
      ensures Added(before, kind, payload, key, Threw(false))
    {
    }

    method EndRun(completed: bool) returns (answer: Answer)
      requires Valid() && !body.pc.Done? && !body.pc.Holding? && !body.pc.Agent?
      requires BodyOp(step, epoch, body, Go) == AppendTerminal(run, step, epoch, completed, NoPayload)
      modifies this`body, this`script, this`at, store
      ensures Valid() && Went(old(store.View()), old(body), Go, answer) && Noted(old(script), Go, answer)
      ensures Added(old(store.View()), if completed then RunCompleted else RunFailed, NoPayload, None, answer)
      ensures old(Sound()) ==>
                && answer.Replied? && (Landed(answer) <==> old(StateOf(store.View())) == Running)
                && Writes(old(store.View()), Closing(old(StateOf(store.View())), completed),
                          Closed(old(StateOf(store.View())), completed))
    {
      hide BodyOp, NextBody, Alone, Tools, Clean, Added, Went, Noted, Fence, Wrote;
      ghost var before := store.View();
      var fate, reply := fates(at), Rows(0);
      if !fate.Before? {
        reply := store.EndRun(run, step, epoch, completed, NoPayload);
      }
      answer := AnswerOf(fate, reply);
      FencedAdds(before, AppendTerminal(run, step, epoch, completed, NoPayload), fate, reply);
      if old(Sound()) {
        EndingWrites(before, run, step, epoch, completed);
        StillSound(before, Closing(StateOf(before), completed), Closed(StateOf(before), completed));
      }
      LostIsNothing(before);
      OpSettled(step, epoch, body, Go);
      ghost var _ := Took(before, Go, reply);
    }

    method CommitStarted(payload: Payload, ghost choice: Choice) returns (answer: Answer)
      requires Valid() && !body.pc.Done? && !body.pc.Holding? && !body.pc.Agent? && Undisturbed(choice)
      requires BodyOp(step, epoch, body, choice) == AppendStarted(run, step, epoch, payload)
      modifies this`body, this`script, this`at, store
      ensures Valid() && Went(old(store.View()), old(body), choice, answer) && Noted(old(script), choice, answer)
      ensures Added(old(store.View()), StepStarted, payload, None, answer)
      ensures old(Sound()) ==>
                Landed(answer) && Writes(old(store.View()), [Line(StepStarted, payload, None)], Begun(old(StateOf(store.View()))))
    {
      hide BodyOp, NextBody, Alone, Tools, Clean, Added, Went, Noted, Fence, Wrote;
      ghost var before := store.View();
      var fate, reply := fates(at), Rows(0);
      if !fate.Before? {
        reply := store.CommitStepStarted(run, step, epoch, payload);
      }
      answer := AnswerOf(fate, reply);
      FencedAdds(before, AppendStarted(run, step, epoch, payload), fate, reply);
      if old(Sound()) {
        StartWrites(before, run, step, epoch, payload);
        StillSound(before, [Line(StepStarted, payload, None)], Begun(StateOf(before)));
      }
      LostIsNothing(before);
      OpSettled(step, epoch, body, choice);
      ghost var _ := Took(before, choice, reply);
    }

    ghost function FaultedRow(row: Step): Step {
      row.(state := StepState.Faulted, lease := None)
    }

    ghost function HeldRow(row: Step): Step {
      row.(state := Runnable, lease := None, owner := None, awaiting := true)
    }

    /** Only the step's row was left otherwise than it was. */
    ghost predicate Left(before: Db, row: Step)
      reads store
    {
      step in before.steps && store.View() == before.(steps := before.steps[step := row])
    }

    ghost predicate Faulted(before: Db)
      reads store
    {
      step in before.steps && Left(before, FaultedRow(before.steps[step]))
    }

    /** terminate_step, at the claim's epoch. */
    method FaultRow() returns (answer: Answer)
      requires Valid() && !body.pc.Done? && !body.pc.Holding? && !body.pc.Agent?
      requires BodyOp(step, epoch, body, Go) == DbOp.Terminate(step, epoch)
      modifies this`body, this`script, this`at, store
      ensures Valid() && Went(old(store.View()), old(body), Go, answer) && Noted(old(script), Go, answer)
      ensures store.events == old(store.events)
      ensures answer.Replied? && store.steps[step].epoch == epoch ==>
                store.steps[step].state.Faulted? && store.steps[step].lease.None?
      ensures old(Sound()) ==> answer.Replied? && Faulted(old(store.View()))
    {
      hide BodyOp, NextBody, Alone, Tools, Clean;
      ghost var before := store.View();
      var fate, reply := fates(at), Rows(0);
      if !fate.Before? {
        reply := store.TerminateStep(step, epoch);
      }
      answer := AnswerOf(fate, reply);
      LostIsNothing(before);
      OpSettled(step, epoch, body, Go);
      ghost var _ := Took(before, Go, reply);
    }

    /** The hold of a row this claim holds; any other is left as it is. */
    ghost predicate Released(before: Db)
      reads store
    {
      && Holds(before, worker, step, epoch)
      && store.steps == before.steps[step := before.steps[step].(state := Runnable, lease := None, owner := None,
                                                                 awaiting := true)]
    }

    /** The update that gives the lease up for the hold. */
    method HoldRow() returns (answer: Answer)
      requires Valid() && body.pc.Holding?
      requires BodyOp(step, epoch, body, Go) == HoldStep(worker, step, epoch)
      modifies this`body, this`script, this`at, store
      ensures Valid() && Went(old(store.View()), old(body), Go, answer) && Noted(old(script), Go, answer)
      ensures store.events == old(store.events)
      ensures store.steps == old(store.steps) || Released(old(store.View()))
      ensures answer.Replied? && Holds(old(store.View()), worker, step, epoch) ==> store.steps[step].awaiting
      ensures old(Sound()) ==>
                && answer.Replied?
                && Left(old(store.View()),
                        if old(store.steps[step]).owner == Some(worker) then HeldRow(old(store.steps[step])) else old(store.steps[step]))
    {
      hide BodyOp, NextBody, Alone, Tools, Clean;
      ghost var before := store.View();
      var fate, reply := fates(at), Rows(0);
      if !fate.Before? {
        reply := store.Hold(worker, step, epoch);
      }
      answer := AnswerOf(fate, reply);
      LostIsNothing(before);
      OpSettled(step, epoch, body, Go);
      ghost var _ := Took(before, Go, reply);
    }

    /** run.failed as the last thing a body does. */
    method EndFailed()
      requires Valid() && (body.pc.CapTerminal? || body.pc.AnalysisFailTerminal? || body.pc.FinishFailure?)
      modifies this`body, this`script, this`at, store
      ensures Valid() && body.pc == Done(Raised)
      ensures Plain(old(script))
      ensures old(Sound()) ==> Writes(old(store.View()), Closing(old(StateOf(store.View())), false),
                       Closed(old(StateOf(store.View())), false))
    {
      hide Tools, Clean, Alone, ProceedWork, ProceedResume, Added, Wrote;
      var _ := EndRun(false);
    }

    // ----- what a body leaves when nothing befalls it ---------------------------------------

    /** These lines, the run in this state, the step's row like this, and nothing else. */
    ghost predicate Followed(before: Db, t: Trace)
      reads store
    {
      && step in before.steps && Wrote(before, store.View().(steps := before.steps), run, step, epoch, t.lines, t.state)
      && store.steps == before.steps[step := t.row]
    }

    lemma OnlyLogged(before: Db, lines: seq<Line>, state: RunState, outcome: Outcome)
      requires step in before.steps
      ensures Writes(before, lines, state) ==> Followed(before, Trace(lines, state, before.steps[step], outcome))
    {
      hide Wrote;
      if Writes(before, lines, state) {
        assert before.steps[step := before.steps[step]] == before.steps;
        assert store.View().(steps := before.steps) == store.View();
      }
    }

    lemma FollowedThen(a: Db, b: Db, first: seq<Line>, mid: RunState, t: Trace)
      requires Wrote(a, b, run, step, epoch, first, mid) && Followed(b, t)
      ensures Followed(a, t.(lines := first + t.lines))
    {
      WroteThen(a, b, store.View().(steps := b.steps), run, step, epoch, first, t.lines, mid, t.state);
    }

    /** An analysis that starts: it completes, or records why not and fails its run. */
    ghost function StartedTrace(db: Db, proceed: bool, computed: bool): Trace
      requires step in db.steps
    {
      var state := Begun(StateOf(db));
      Trace([Plainly(StepStarted)]
            + (if proceed && computed then [Line(StepCompleted, Ref("output"), None)] + Closing(state, true)
               else [Plainly(StepFailed)] + Closing(state, false)),
            Closed(state, proceed && computed), db.steps[step],
            if proceed && computed && state == Running then Succeeded else Raised)
    }

    /** One whose failure is already on record only ends its run. */
    ghost function AnalysisTrace(db: Db, proceed: bool, computed: bool): Trace
      requires step in db.steps
    {
      if HasFailed(db.events, step)
      then Trace(Closing(StateOf(db), false), Closed(StateOf(db), false), db.steps[step], Raised)
      else StartedTrace(db, proceed, computed)
    }

    // ----- the analysis body --------------------------------------------------------------

    /** _append_failure, from wherever the body records one: step.failed, then run.failed while the run is
        running. */
    method AppendFailure()
      requires Valid() && body.pc.AnalysisFailEvent?
      modifies this`body, this`script, this`at, store
      ensures Valid() && body.pc == Done(Raised)
      ensures Plain(old(script))
      ensures old(Sound()) ==>
                Writes(old(store.View()), [Plainly(StepFailed)] + Closing(old(StateOf(store.View())), false),
                       Closed(old(StateOf(store.View())), false))
    {
      hide Tools, Clean, Alone, Proceed, OnException, BodyOp, NextBody, Fence, Wrote, Added;
      var recorded := RecordAnalysisFailure();
      if recorded {
        ghost var mid := store.View();
        EndFailed();
        if old(Sound()) {
          WritesThen(old(store.View()), mid, [Plainly(StepFailed)], Closing(StateOf(mid), false), StateOf(mid),
                     Closed(StateOf(mid), false));
        }
      }
    }

    method RecordAnalysisFailure() returns (recorded: bool)
      requires Valid() && body.pc.AnalysisFailEvent?
      modifies this`body, this`script, this`at, store
      ensures Valid() && body.pc == (if recorded then AnalysisFailTerminal else Done(Raised)) && Plain(old(script))
      ensures old(Sound()) ==> recorded && Writes(old(store.View()), [Plainly(StepFailed)], old(StateOf(store.View())))
    {
      hide Tools, Clean, Alone, ProceedStart, ProceedResume, ProceedWork, Apply, Added, Wrote, Fence;
      var answer := Append(StepFailed, NoPayload, None, true, Go);
      recorded := Landed(answer);
    }

    /** _analysis_body: an earlier failure is finished, not retried; otherwise start, compute, and
        complete or fail. */
    method AnalysisBody(roleExpected: bool, requestFound: bool, computed: bool) returns (outcome: Outcome)
      requires Valid() && body.pc.ReadFailed?
      modifies this`body, this`script, this`at, store
      ensures Valid() && body.pc == Done(outcome)
      ensures roleExpected && requestFound && computed && Clean(old(script)) ==> Clean(script)
      ensures outcome.Succeeded? ==>
                roleExpected && requestFound && computed && !HasFailed(old(store.events), step) && Smooth(script)
      ensures Tools(script) == Tools(old(script))
      ensures old(Sound()) ==>
                Followed(old(store.View()), AnalysisTrace(old(store.View()), roleExpected && requestFound, computed))
                && outcome == AnalysisTrace(old(store.View()), roleExpected && requestFound, computed).outcome
    {
      hide Tools, Clean, Alone, Smooth, Wrote, Fence, HasFailed;
      var alreadyFailed := HasFailed(store.events, step);
      var answer := ReadAlreadyFailed();
      if answer.Threw? {
        return Raised;
      }
      if alreadyFailed {
        EndFailed();
        OnlyLogged(old(store.View()), Closing(StateOf(old(store.View())), false), Closed(StateOf(old(store.View())), false), Raised);
        return Raised;
      }
      outcome := Analyse(roleExpected && requestFound, computed);
    }

    /** step.started, then the computation, or the failure of one that cannot begin. */
    method Analyse(proceed: bool, computed: bool) returns (outcome: Outcome)
      requires Valid() && body.pc.AnalysisStarting?
      modifies this`body, this`script, this`at, store
      ensures Valid() && body.pc == Done(outcome)
      ensures Tools(script) == Tools(old(script)) && (proceed && computed && Clean(old(script)) ==> Clean(script))
      ensures outcome.Succeeded? ==> proceed && computed
      ensures old(Sound()) ==>
                Followed(old(store.View()), StartedTrace(old(store.View()), proceed, computed))
                && outcome == StartedTrace(old(store.View()), proceed, computed).outcome
    {
      hide Tools, Clean, Alone, Wrote, Fence;
      var started := StartAnalysis(proceed);
      if !started {
        return Raised;
      }
      ghost var mid := store.View();
      if proceed {
        outcome := Compute(computed);
      } else {
        AppendFailure();
        outcome := Raised;
      }
      if old(Sound()) {
        ghost var more := if proceed && computed then [Line(StepCompleted, Ref("output"), None)] + Closing(StateOf(mid), true)
                          else [Plainly(StepFailed)] + Closing(StateOf(mid), false);
        WritesThen(old(store.View()), mid, [Plainly(StepStarted)], more, StateOf(mid), Closed(StateOf(mid), proceed && computed));
        OnlyLogged(old(store.View()), [Plainly(StepStarted)] + more, Closed(StateOf(mid), proceed && computed), outcome);
      }
    }

    method ReadAlreadyFailed() returns (answer: Answer)
      requires Valid() && body.pc.ReadFailed?
      modifies this`body, this`script, this`at
      ensures Valid() && Plain(old(script))
      ensures if answer.Threw? then body.pc == Done(Raised)
              else if HasFailed(store.events, step) then body.pc.FinishFailure? else body.pc.AnalysisStarting?
      ensures old(Sound()) ==> answer.Replied?
    {
      hide Tools, Clean, Alone, ProceedStart, ProceedResume, ProceedWork, HasFailed;
      answer := Reading(Go);
    }

    /** step.started, whether or not the step can then proceed. */
    method StartAnalysis(proceed: bool) returns (started: bool)
      requires Valid() && body.pc.AnalysisStarting?
      modifies this`body, this`script, this`at, store
      ensures Valid()
      ensures if !started then body.pc == Done(Raised) else if proceed then body.pc.Computing? else body.pc.AnalysisFailEvent?
      ensures Tools(script) == Tools(old(script)) && (proceed && Clean(old(script)) ==> Clean(script))
      ensures old(Sound()) ==> started && Writes(old(store.View()), [Plainly(StepStarted)], Begun(old(StateOf(store.View()))))
    {
      hide Tools, Clean, Alone, ProceedStart, ProceedResume, ProceedWork, Apply, Added, Wrote, Fence;
      var answer := CommitStarted(NoPayload, if proceed then Go else Otherwise);
      started := Landed(answer);
    }

    /** Load, verify, build and store the artifact; then complete, or record the failure. */
    method Compute(computed: bool) returns (outcome: Outcome)
      requires Valid() && body.pc.Computing?
      modifies this`body, this`script, this`at, store
      ensures Valid() && body.pc == Done(outcome)
      ensures Tools(script) == Tools(old(script)) && (computed && Clean(old(script)) ==> Clean(script))
      ensures outcome.Succeeded? ==> computed
      ensures old(Sound()) ==>
                && (outcome.Succeeded? <==> computed && old(StateOf(store.View())) == Running)
                && Writes(old(store.View()),
                          if computed then [Line(StepCompleted, Ref("output"), None)] + Closing(old(StateOf(store.View())), true)
                          else [Plainly(StepFailed)] + Closing(old(StateOf(store.View())), false), Closed(old(StateOf(store.View())), computed))
    {
      hide Tools, Clean, Alone, ProceedStart, ProceedResume, ProceedWork, Apply, Added, Wrote, Fence;
      var answer := Reading(if computed then Go else Otherwise);
      if answer.Threw? || !computed {
        AppendFailure();
        return Raised;
      }
      outcome := Complete();
    }

    /** step.completed, then run.completed. */
    method Complete() returns (outcome: Outcome)
      requires Valid() && body.pc.Completing?
      modifies this`body, this`script, this`at, store
      ensures Valid() && body.pc == Done(outcome)
      ensures Plain(old(script))
      ensures outcome.Succeeded? ==>
                && |store.events| == |old(store.events)| + 2
                && store.events[|store.events| - 2].kind.StepCompleted? && store.events[|store.events| - 1].kind.RunCompleted?
                && store.events[|store.events| - 1].run == run
      ensures old(Sound()) ==>
                && (outcome.Succeeded? <==> old(StateOf(store.View())) == Running)
                && Writes(old(store.View()), [Line(StepCompleted, Ref("output"), None)] + Closing(old(StateOf(store.View())), true),
                          Closed(old(StateOf(store.View())), true))
    {
      hide Tools, Clean, Alone, Wrote, Fence;
      var completed := RecordCompleted();
      if !completed {
        return Raised;
      }
      ghost var mid := store.View();
      outcome := EndCompleted();
      if old(Sound()) {
        WritesThen(old(store.View()), mid, [Line(StepCompleted, Ref("output"), None)], Closing(StateOf(mid), true), StateOf(mid),
                   Closed(StateOf(mid), true));
      }
    }

    method RecordCompleted() returns (completed: bool)
      requires Valid() && body.pc.Completing?
      modifies this`body, this`script, this`at, store
      ensures Valid() && Plain(old(script)) && (if completed then body.pc.RunCompleting? else body.pc == Done(Raised))
      ensures completed ==>
                && |store.events| == |old(store.events)| + 1 && store.events[..|old(store.events)|] == old(store.events)
                && store.events[|old(store.events)|].kind.StepCompleted? && store.events[|old(store.events)|].run == run
      ensures old(Sound()) ==>
                completed && Writes(old(store.View()), [Line(StepCompleted, Ref("output"), None)], old(StateOf(store.View())))
    {
      hide Tools, Clean, Alone, ProceedStart, ProceedResume, ProceedAnalysis, Apply, Fence, Wrote;
      var answer := Append(StepCompleted, Ref("output"), None, true, Go);
      completed := Landed(answer);
    }

    method EndCompleted() returns (outcome: Outcome)
      requires Valid() && body.pc.RunCompleting?
      modifies this`body, this`script, this`at, store
      ensures Valid() && body.pc == Done(outcome) && Plain(old(script))
      ensures outcome.Succeeded? ==>
                && |store.events| == |old(store.events)| + 1 && store.events[..|old(store.events)|] == old(store.events)
                && store.events[|old(store.events)|].kind.RunCompleted? && store.events[|old(store.events)|].run == run
      ensures old(Sound()) ==>
                && (outcome.Succeeded? <==> old(StateOf(store.View())) == Running)
                && Writes(old(store.View()), Closing(old(StateOf(store.View())), true),
                          Closed(old(StateOf(store.View())), true))
    {
      hide Tools, Clean, Alone, ProceedStart, ProceedResume, ProceedAnalysis, Apply, Wrote, Fence;
      var answer := EndRun(true);
      outcome := if Landed(answer) then Succeeded else Raised;
    }

    // ----- the executor's body ------------------------------------------------------------

    /** The failure's own row, after everything that was committed before it. */
    ghost predicate FailedLast(before: seq<Event>)
      reads store
    {
      && before < store.events
      && store.events[|store.events| - 1].kind.StepFailed? && store.events[|store.events| - 1].writer == ByLease(step, epoch)
    }

    /** step.failed: recorded if nothing befalls the append and the lease holds. */
    method RecordFailure()
      requires Valid() && body.pc.FailEvent?
      modifies this`body, this`script, this`at, store
      ensures Valid() && body.pc == Done(Raised)
      ensures Plain(old(script)) && |script| == |old(script)| + 1
      ensures old(store.events) <= store.events
      ensures fates(old(at)).Fine? && Fence(store.View(), step, epoch) && run in store.runs ==> FailedLast(old(store.events))
      ensures old(Sound()) ==> Writes(old(store.View()), [Plainly(StepFailed)], old(StateOf(store.View())))
      ensures !Fence(old(store.View()), step, epoch) ==> store.View() == old(store.View())
    {
      hide Tools, Clean, Alone, ProceedStart, ProceedResume, ProceedAnalysis, Apply, Wrote;
      var _ := Append(StepFailed, NoPayload, None, true, Go);
    }

    /** What a handler that records failures leaves: the row, if nothing befell its append and the lease
        holds; one that is silent leaves the log as it was. */
    ghost predicate Handled(silent: bool, before: seq<Event>)
      reads this, store
    {
      if silent then store.events == before
      else script != [] && before <= store.events
           && (fates(|script| - 1).Fine? && Fence(store.View(), step, epoch) && run in store.runs ==> FailedLast(before))
    }

    /** The handlers around the agent and around a resume: step.failed, except that a resume takes a
        LookupError for the refusal it has recorded. */
    method Handle(lookup: bool, resumed: bool)
      requires Valid() && body.pc == (if lookup && resumed then Done(Raised) else FailEvent)
      modifies this`body, this`script, this`at, store
      ensures Valid() && body.pc == Done(Raised)
      ensures Plain(old(script)) && Handled(lookup && resumed, old(store.events))
      ensures old(Sound()) && !(lookup && resumed) ==> Writes(old(store.View()), [Plainly(StepFailed)], old(StateOf(store.View())))
      ensures !Fence(old(store.View()), step, epoch) ==> store.View() == old(store.View())
    {
      hide Tools, Clean, Alone, Fence, FailedLast, Wrote;
      if !(lookup && resumed) {
        RecordFailure();
      }
    }

    /** The cap path: a distinct event, then run.failed while the run is running. */
    method FailAtCap()
      requires Valid() && body.pc.CapEvent?
      modifies this`body, this`script, this`at, store
      ensures Valid() && body.pc == Done(Raised)
      ensures Plain(old(script))
      ensures old(Sound()) ==>
                Writes(old(store.View()), [Plainly(Other("step.approval.cap.exceeded"))] + Closing(old(StateOf(store.View())), false),
                       Closed(old(StateOf(store.View())), false))
    {
      hide Tools, Clean, Alone, Proceed, OnException, BodyOp, NextBody, Fence, Wrote, Added;
      var recorded := RecordCap();
      if recorded {
        ghost var mid := store.View();
        EndFailed();
        if old(Sound()) {
          WritesThen(old(store.View()), mid, [Plainly(CAP_EXCEEDED)], Closing(StateOf(mid), false), StateOf(mid),
                     Closed(StateOf(mid), false));
        }
      }
    }

    method RecordCap() returns (recorded: bool)
      requires Valid() && body.pc.CapEvent?
      modifies this`body, this`script, this`at, store
      ensures Valid() && body.pc == (if recorded then CapTerminal else Done(Raised)) && Plain(old(script))
      ensures old(Sound()) ==> recorded && Writes(old(store.View()), [Plainly(CAP_EXCEEDED)], old(StateOf(store.View())))
    {
      hide Tools, Clean, Alone, ProceedWork, ProceedResume, ProceedAnalysis, Apply, Added, Wrote, Fence;
      var answer := Append(CAP_EXCEEDED, NoPayload, None, true, Go);
      recorded := Landed(answer);
    }

    /** append_role_refusal, for a role that does not load or does not compile. */
    method RefuseRole(loads: bool) returns (outcome: Outcome)
      requires Valid() && (if loads then body.pc.CompileRefusal? else body.pc.RoleRefusal?)
      modifies this`body, this`script, this`at, store
      ensures Valid() && body.pc == Done(outcome)
      ensures Tools(script) == Tools(old(script))
      ensures old(Sound()) ==>
                && outcome.Succeeded?
                && Writes(old(store.View()), [Plainly(Other(if loads then "role.compile.refused" else "role.load.failed"))],
                          old(StateOf(store.View())))
    {
      hide Tools, Clean, Alone, ProceedWork, ProceedResume, ProceedAnalysis, Apply, Added, Wrote, Fence;
      var answer := Append(if loads then ROLE_COMPILE_REFUSED else ROLE_LOAD_FAILED, NoPayload, None, true, Go);
      outcome := if Landed(answer) then Succeeded else Raised;
    }

    /** step.started with the run's move, then the page event when the ceiling was reached. */
    method StartStep(ceiling: bool) returns (started: bool)
      requires Valid() && body.pc.Starting? && body.ceiling == ceiling
      modifies this`body, this`script, this`at, store
      ensures Valid() && (if started then body.pc.Preparing? else body.pc == Done(Raised)) && body.cycles == old(body.cycles)
      ensures Plain(old(script))
      ensures old(Sound()) ==> started && Writes(old(store.View()), StartLines(ceiling), Begun(old(StateOf(store.View()))))
    {
      hide Tools, Clean, Alone, Wrote, Fence;
      started := RecordStarted();
      if started && ceiling {
        ghost var mid := store.View();
        started := Page();
        if old(Sound()) {
          WritesThen(old(store.View()), mid, [Line(StepStarted, Ref("producer"), None)],
                     [Plainly(Other("step.spend.ceiling.reached"))], StateOf(mid), StateOf(mid));
        }
      }
    }

    method RecordStarted() returns (started: bool)
      requires Valid() && body.pc.Starting?
      modifies this`body, this`script, this`at, store
      ensures Valid() && body.cycles == old(body.cycles) && Plain(old(script))
      ensures if !started then body.pc == Done(Raised)
              else if old(body.ceiling) then body.pc.CeilingEvent? else body.pc.Preparing?
      ensures old(Sound()) ==>
                && started
                && Writes(old(store.View()), [Line(StepStarted, Ref("producer"), None)], Begun(old(StateOf(store.View()))))
    {
      hide Tools, Clean, Alone, ProceedWork, ProceedResume, ProceedAnalysis, Apply, Added, Wrote, Fence;
      var answer := CommitStarted(Ref("producer"), Go);
      started := Landed(answer);
    }

    /** step.spend.ceiling.reached pages; it does not stop the step. */
    method Page() returns (paged: bool)
      requires Valid() && body.pc.CeilingEvent?
      modifies this`body, this`script, this`at, store
      ensures Valid() && body.cycles == old(body.cycles) && Plain(old(script))
      ensures if paged then body.pc.Preparing? else body.pc == Done(Raised)
      ensures old(Sound()) ==> paged && Writes(old(store.View()), [Plainly(Other("step.spend.ceiling.reached"))], old(StateOf(store.View())))
    {
      hide Tools, Clean, Alone, ProceedWork, ProceedResume, ProceedAnalysis, Apply, Added, Wrote, Fence;
      var answer := Append(CEILING_REACHED, NoPayload, None, true, Go);
      paged := Landed(answer);
    }

    /** Where the agent runs: each tool call is recorded as it is made, and the first that cannot be
        recorded ends the run. If it throws, a fresh body, and a resumed one but for a LookupError,
        records step.failed last; otherwise it suspends or completes. */
    method RunAgent(agent: AgentRun, resumed: bool) returns (outcome: Outcome, ghost passage: Passage)
      requires Valid() && body.pc.Agent? && AgentCalls(agent) && resumed == (body.cycles > 0)
      modifies this`body, this`script, this`at, store
      ensures Valid() && body.pc == Done(outcome)
      ensures MadeSome(Tools(old(script)), Tools(script), agent.calls)
      ensures !agent.ending.Fails? && Clean(old(script)) ==> Clean(script)
      ensures passage.Passed? ==>
                && !agent.ending.Fails? && Tools(script) == Tools(old(script)) + agent.calls
                && forall i :: |old(script)| <= i <= |old(script)| + |agent.calls| ==> fates(i).Fine?
      ensures passage.Thrown? ==>
                outcome.Raised? && exists before: seq<Event> :: Quiet(old(store.events), before)
                                                       && Handled(passage.lookup && resumed, before)
      ensures outcome.Succeeded? ==>
                && !agent.ending.Fails? && Tools(script) == Tools(old(script)) + agent.calls
                && (agent.ending.Asks? ==> body.asking == agent.ending.ids)
      ensures old(Sound()) ==>
                Followed(old(store.View()), RunTrace(old(store.View()), agent)) && outcome == RunTrace(old(store.View()), agent).outcome
    {
      hide Tools, Clean, Alone, Fence, ToolCall, MadeSome, Quiet, Handled, Wrote, ToolLines;
      var thrown := TryAgent(agent);
      passage := thrown;
      ghost var mid := store.View();
      if thrown.Thrown? {
        ghost var before := store.events;
        Handle(thrown.lookup, resumed);
        assert Quiet(old(store.events), before);
        if old(Sound()) {
          ThrownTrace(old(store.View()), mid, agent);
        }
        return Raised, thrown;
      }
      if agent.ending.Asks? {
        outcome := Suspend(agent.ending.ids);
      } else {
        outcome := Complete();
      }
      if old(Sound()) {
        ReturnedTrace(old(store.View()), mid, agent, outcome);
      }
    }

    ghost function RunTrace(db: Db, agent: AgentRun): Trace
      requires step in db.steps
    {
      AgentTrace(db.events, db.steps[step], StateOf(db), agent)
    }

    /** The agent's run as it stood before its handler or its ending. */
    ghost predicate TriedTo(before: Db, mid: Db, lines: seq<Line>) {
      && Wrote(before, mid, run, step, epoch, lines, StateOf(before)) && mid.steps == before.steps && run in mid.runs
      && StateOf(mid) == StateOf(before) && step in before.steps
    }

    lemma ThrownTrace(before: Db, mid: Db, agent: AgentRun)
      requires step in before.steps
      requires var lines := ToolLines(before.events, agent.calls);
               if |lines| < |agent.calls|
               then store.View() == mid && Wrote(before, mid.(steps := before.steps), run, step, epoch, lines, StateOf(before))
                    && mid.steps == before.steps[step := FaultedRow(before.steps[step])]
               else agent.ending.Fails? && TriedTo(before, mid, lines) && Writes(mid, [Plainly(StepFailed)], StateOf(mid))
      ensures Followed(before, RunTrace(before, agent))
    {
      hide Wrote, ToolLines, Fence;
      var lines := ToolLines(before.events, agent.calls);
      if |lines| >= |agent.calls| {
        WritesThen(before, mid, lines, [Plainly(StepFailed)], StateOf(before), StateOf(mid));
        OnlyLogged(before, lines + [Plainly(StepFailed)], StateOf(mid), Raised);
      }
    }

    lemma ReturnedTrace(before: Db, mid: Db, agent: AgentRun, outcome: Outcome)
      requires var lines := ToolLines(before.events, agent.calls);
               |lines| >= |agent.calls| && !agent.ending.Fails? && TriedTo(before, mid, lines)
      requires if agent.ending.Asks? then Followed(mid, SuspendTrace(mid, agent.ending.ids)) && outcome.Succeeded?
               else (outcome.Succeeded? <==> StateOf(mid) == Running)
                    && Writes(mid, [Line(StepCompleted, Ref("output"), None)] + Closing(StateOf(mid), true), Closed(StateOf(mid), true))
      ensures Followed(before, RunTrace(before, agent)) && outcome == RunTrace(before, agent).outcome
    {
      hide Wrote, ToolLines, Fence;
      var lines := ToolLines(before.events, agent.calls);
      if agent.ending.Asks? {
        FollowedThen(before, mid, lines, StateOf(before), SuspendTrace(mid, agent.ending.ids));
      } else {
        var more := [Line(StepCompleted, Ref("output"), None)] + Closing(StateOf(mid), true);
        WritesThen(before, mid, lines, more, StateOf(before), Closed(StateOf(mid), true));
        OnlyLogged(before, lines + more, Closed(StateOf(mid), true), outcome);
      }
    }

    /** Rows were added, and none of them is a step.failed. */
    ghost predicate Quiet(before: seq<Event>, after: seq<Event>) {
      before <= after && forall k :: |before| <= k < |after| ==> !after[k].kind.StepFailed?
    }

    lemma QuietOn(a: seq<Event>, b: seq<Event>, c: seq<Event>)
      requires Quiet(a, b) && Quiet(b, c)
      ensures Quiet(a, c)
    {
    }

    /** The agent's run: it ends where the agent does, or throws. */
    method TryAgent(agent: AgentRun) returns (passage: Passage)
      requires Valid() && body.pc.Agent? && AgentCalls(agent)
      modifies this`body, this`script, this`at, store
      ensures Valid() && body.cycles == old(body.cycles) && Quiet(old(store.events), store.events)
      ensures MadeSome(Tools(old(script)), Tools(script), agent.calls)
      ensures !agent.ending.Fails? && Clean(old(script)) ==> Clean(script)
      ensures match passage
              case Thrown(lookup) => body.pc == Caught(lookup)
              case Passed =>
                && !agent.ending.Fails? && Tools(script) == Tools(old(script)) + agent.calls
                && (forall i :: |old(script)| <= i <= |old(script)| + |agent.calls| ==> fates(i).Fine?)
                && if agent.ending.Asks? then body.pc.Suspending? && body.asking == agent.ending.ids else body.pc.Completing?
      ensures old(Sound()) ==> Tried(old(store.View()), agent, passage)
    {
      hide Tools, Clean, Alone, Fence, ToolCall, Wrote, ToolLines, Stops, ToolKeyTaken;
      AgentBegins(store.View());
      for i := 0 to |agent.calls|
        invariant Valid() && body.pc.Agent? && body.cycles == old(body.cycles)
        invariant Tools(script) == Tools(old(script)) + agent.calls[..i] && Quiet(old(store.events), store.events)
        invariant |script| == |old(script)| + i && forall j :: |old(script)| <= j < |script| ==> fates(j).Fine?
        invariant Clean(old(script)) ==> Clean(script)
        invariant old(Sound()) ==> Calling(old(store.View()), agent.calls, i)
      {
        MadeFirst(Tools(old(script)), Tools(script), agent.calls, i);
        MadeFirst(Tools(old(script)), Tools(script) + [agent.calls[i]], agent.calls, i + 1);
        ghost var before := store.View();
        passage := CallTool(agent.calls[i]);
        QuietOn(old(store.events), before.events, store.events);
        if old(Sound()) {
          CalledOne(old(store.View()), before, agent, i, passage);
        }
        if passage.Thrown? {
          return;
        }
      }
      assert agent.calls[..|agent.calls|] == agent.calls;
      MadeFirst(Tools(old(script)), Tools(script), agent.calls, |agent.calls|);
      passage := AgentReturns(agent.ending);
    }

    /** After i calls, all of them recorded. */
    ghost predicate Calling(before: Db, calls: seq<Choice>, i: nat)
      requires i <= |calls|
      reads store
    {
      |ToolLines(before.events, calls[..i])| == i && Writes(before, ToolLines(before.events, calls[..i]), StateOf(before))
    }

    /** What the agent's run leaves: its calls' lines, and the step ended if one of them ended it. */
    ghost predicate Tried(before: Db, agent: AgentRun, passage: Passage)
      reads store
    {
      && step in before.steps
      && var lines := ToolLines(before.events, agent.calls);
         if |lines| < |agent.calls|
         then passage == Thrown(false) && !Fence(store.View(), step, epoch)
              && Followed(before, Trace(lines, StateOf(before), FaultedRow(before.steps[step]), Raised))
         else passage == (if agent.ending.Fails? then Thrown(false) else Passed) && Writes(before, lines, StateOf(before))
    }

    lemma AgentBegins(before: Db)
      requires store.View() == before
      ensures Sound() ==> forall calls :: Calling(before, calls, 0)
    {
      hide Wrote, Fence;
      if Sound() {
        WroteNothing(before, run, step, epoch);
        forall calls: seq<Choice> ensures Calling(before, calls, 0) {
          assert calls[..0] == [];
        }
      }
    }

    /** Whether a call stops is the same judged now, or at the start with the lines since. */
    lemma StopsAlike(before: Db, mid: Db, lines: seq<Line>, state: RunState, call: Choice)
      requires Wrote(before, mid, run, step, epoch, lines, state)
      ensures Stops(mid.events, [], call) <==> Stops(before.events, lines, call)
    {
      hide Wrote, ToolKeyTaken;
      if call.Invoke? {
        TakenAfter(before, mid, run, step, epoch, lines, state, InvocationKey(run, step, call.call));
      }
    }

    lemma CalledOne(before: Db, mid: Db, agent: AgentRun, i: nat, passage: Passage)
      requires i < |agent.calls| && step in before.steps && run in before.runs && mid.steps == before.steps
      requires |ToolLines(before.events, agent.calls[..i])| == i && StateOf(mid) == StateOf(before) && run in mid.runs
      requires Wrote(before, mid, run, step, epoch, ToolLines(before.events, agent.calls[..i]), StateOf(before))
      requires if Stops(mid.events, [], agent.calls[i]) then passage == Thrown(false) && Faulted(mid)
               else passage.Passed? && Writes(mid, [ToolLine(agent.calls[i])], StateOf(mid))
      ensures passage.Passed? ==> Calling(before, agent.calls, i + 1)
      ensures passage.Thrown? ==> Tried(before, agent, passage)
    {
      hide Wrote, Stops, Fence;
      var calls := agent.calls;
      var lines := ToolLines(before.events, calls[..i]);
      StopsAlike(before, mid, lines, StateOf(before), calls[i]);
      assert calls[..i + 1][..i] == calls[..i];
      if Stops(before.events, lines, calls[i]) {
        assert ToolLines(before.events, calls[..i + 1]) == lines;
        StoppedStays(before.events, calls, i + 1);
        LeftFollowed(mid, FaultedRow(mid.steps[step]), Raised);
        FollowedThen(before, mid, lines, StateOf(before), Trace([], StateOf(mid), FaultedRow(mid.steps[step]), Raised));
        FaultedUnfenced(mid);
        assert lines + [] == lines;
      } else {
        WritesThen(before, mid, lines, [ToolLine(calls[i])], StateOf(before), StateOf(mid));
      }
    }

    lemma FaultedUnfenced(before: Db)
      requires Faulted(before)
      ensures !Fence(store.View(), step, epoch)
    {
    }

    /** The line of a call through the tool stack. */
    ghost function ToolLine(call: Choice): Line {
      match call
      case Invoke(id) => Line(ToolInvoked, NoPayload, Some(InvocationKey(run, step, id)))
      case Invoked(id) => Line(Other("tool.completed"), NoPayload, Some(InvocationKey(run, step, id)))
      case _ => Plainly(PolicyDecision)
    }

    /** The calls that end the step: an invocation already recorded, and a decision that could not be. */
    ghost predicate Stops(events: seq<Event>, lines: seq<Line>, call: Choice) {
      || call.Unrecorded?
      || (call.Invoke?
          && (ToolKeyTaken(events, run, InvocationKey(run, step, call.call))
              || exists i :: 0 <= i < |lines| && lines[i].kind == ToolInvoked
                             && lines[i].key == Some(InvocationKey(run, step, call.call))))
    }

    /** The lines of an agent's calls, up to the first that ends the step. */
    ghost function ToolLines(events: seq<Event>, calls: seq<Choice>): (lines: seq<Line>)
      ensures |lines| <= |calls|
    {
      if calls == [] then []
      else
        var k := |calls| - 1;
        var before := ToolLines(events, calls[..k]);
        if |before| < k || Stops(events, before, calls[k]) then before else before + [ToolLine(calls[k])]
    }

    lemma {:induction false} StoppedStays(events: seq<Event>, calls: seq<Choice>, i: nat)
      requires i <= |calls| && |ToolLines(events, calls[..i])| < i
      ensures ToolLines(events, calls) == ToolLines(events, calls[..i])
      decreases |calls|
    {
      if i == |calls| {
        assert calls[..i] == calls;
      } else {
        var k := |calls| - 1;
        assert calls[..k][..i] == calls[..i];
        StoppedStays(events, calls[..k], i);
      }
    }

    /** A resumed or a fresh agent: its calls; then nothing, if one ended the step; or how it ends. */
    ghost function AgentTrace(events: seq<Event>, row: Step, state: RunState, agent: AgentRun): Trace {
      var lines := ToolLines(events, agent.calls);
      if |lines| < |agent.calls| then Trace(lines, state, FaultedRow(row), Raised)
      else
        match agent.ending
        case Fails => Trace(lines + [Plainly(StepFailed)], state, row, Raised)
        case Asks(ids) =>
          Trace(lines + [Line(StepSuspended, PendingCalls(ids), None)], state,
                if row.owner == Some(worker) then HeldRow(row) else row, Succeeded)
        case Answers =>
          Trace(lines + ([Line(StepCompleted, Ref("output"), None)] + Closing(state, true)), Closed(state, true), row,
                if state == Running then Succeeded else Raised)
    }

    ghost function SuspendTrace(db: Db, ids: seq<string>): Trace
      requires step in db.steps
    {
      Trace([Line(StepSuspended, PendingCalls(ids), None)], StateOf(db),
            if db.steps[step].owner == Some(worker) then HeldRow(db.steps[step]) else db.steps[step], Succeeded)
    }

    lemma LeftFollowed(before: Db, row: Step, outcome: Outcome)
      requires Left(before, row) && run in before.runs
      ensures Followed(before, Trace([], StateOf(before), row, outcome))
    {
      WroteNothing(before, run, step, epoch);
      assert store.View().(steps := before.steps) == before;
    }

    ghost function StartLines(ceiling: bool): seq<Line> {
      if ceiling then [Line(StepStarted, Ref("producer"), None)] + [Plainly(Other("step.spend.ceiling.reached"))]
      else [Line(StepStarted, Ref("producer"), None)]
    }

    /** What comes out of the agent's run. */
    method AgentReturns(ending: Ending) returns (passage: Passage)
      requires Valid() && body.pc.Agent?
      modifies this`body, this`script, this`at
      ensures Valid() && (ending.Fails? ==> passage.Thrown?)
      ensures match passage
              case Thrown(lookup) => body.pc == Caught(lookup)
              case Passed =>
                && fates(|old(script)|).Fine?
                && if ending.Asks? then body.pc.Suspending? && body.asking == ending.ids else body.pc.Completing?
      ensures body.cycles == old(body.cycles)
      ensures Tools(script) == Tools(old(script)) && (!ending.Fails? && Clean(old(script)) ==> Clean(script))
      ensures old(Sound()) ==> passage == if ending.Fails? then Thrown(false) else Passed
    {
      hide Tools, Clean, Alone, ProceedStart, ProceedResume, ProceedAnalysis;
      var answer := Reading(match ending case Answers => Go case Asks(ids) => Ask(ids) case Fails => Otherwise);
      passage := if answer.Threw? then Thrown(answer.lookup) else if ending.Fails? then Thrown(false) else Passed;
    }

    /** Where an exception of the agent's run leaves the body. */
    ghost function Caught(lookup: bool): Pc
      reads this
    {
      if lookup && body.cycles > 0 then Done(Raised) else FailEvent
    }

    /** The body after one call through the tool stack: still in the agent, or thrown out of it. */
    ghost predicate Through(passage: Passage, cycles: nat)
      reads this
    {
      body.cycles == cycles && body.pc == if passage.Passed? then Agent else Caught(passage.lookup)
    }

    ghost predicate Called(before: seq<Choice>, call: Choice, passage: Passage)
      reads this
    {
      && (Tools(script) == Tools(before) + [call] || (passage.Thrown? && Tools(script) == Tools(before)))
      && (passage.Passed? ==> |script| == |before| + 1 && fates(|before|).Fine?)
      && (Clean(before) ==> Clean(script))
    }

    /** One call through the tool stack. A refused record ends the run, and an invocation already
        recorded or a decision that could not be recorded ends the step before it. */
    method CallTool(call: Choice) returns (passage: Passage)
      requires Valid() && body.pc.Agent? && ToolCall(call)
      modifies this`body, this`script, this`at, store
      ensures Valid() && Through(passage, old(body.cycles)) && Called(old(script), call, passage)
      ensures Quiet(old(store.events), store.events)
      ensures old(Sound()) ==>
                if Stops(old(store.events), [], call) then passage == Thrown(false) && Faulted(old(store.View()))
                else passage.Passed? && Writes(old(store.View()), [ToolLine(call)], old(StateOf(store.View())))
    {
      hide Tools, Clean, Alone, ProceedStart, ProceedResume, ProceedAnalysis, Apply, Wrote, Fence, ToolKeyTaken;
      match call {
        case Invoke(id) =>
          passage := RecordInvocation(id);
        case Invoked(id) =>
          passage := RecordResult(id);
        case RecordDecision =>
          passage := DecidePolicy();
        case Unrecorded =>
          var answer := Reading(Unrecorded);
          passage := if answer.Threw? then Thrown(answer.lookup) else Passed;
          if answer.Replied? {
            passage := Terminate();
          }
      }
    }

    /** tool.invoked under the derived key; the unique index's refusal of it terminates the step. */
    method RecordInvocation(id: string) returns (passage: Passage)
      requires Valid() && body.pc.Agent?
      modifies this`body, this`script, this`at, store
      ensures Valid() && Through(passage, old(body.cycles)) && Called(old(script), Invoke(id), passage)
      ensures passage.Passed? ==>
                && Fence(old(store.View()), step, epoch) && run in old(store.runs)
                && store.events == old(store.events)
                   + [Event(run, old(store.runs)[run].nextSeq + 1, ToolInvoked, Some(step),
                            Some(InvocationKey(run, step, id)), NoPayload, ByLease(step, epoch))]
      ensures passage.Thrown? ==> store.events == old(store.events)
      ensures old(Sound()) ==>
                if ToolKeyTaken(old(store.events), run, InvocationKey(run, step, id)) then passage == Thrown(false) && Faulted(old(store.View()))
                else passage.Passed? && Writes(old(store.View()), [ToolLine(Invoke(id))], old(StateOf(store.View())))
    {
      hide Tools, Clean, Alone, ProceedStart, ProceedResume, ProceedAnalysis, Apply, InvocationKey, Fence, Wrote, ToolKeyTaken;
      var key := DeriveKey(run, step, id);
      var answer := Append(ToolInvoked, NoPayload, Some(key), false, Invoke(id));
      passage := PassageOf(answer);
      if answer == Replied(Refused(UniqueViolation)) {
        passage := Terminate();
      }
    }

    method RecordResult(id: string) returns (passage: Passage)
      requires Valid() && body.pc.Agent?
      modifies this`body, this`script, this`at, store
      ensures Valid() && Through(passage, old(body.cycles)) && Called(old(script), Invoked(id), passage)
      ensures Quiet(old(store.events), store.events)
      ensures old(Sound()) ==> passage.Passed? && Writes(old(store.View()), [ToolLine(Invoked(id))], old(StateOf(store.View())))
    {
      hide Tools, Clean, Alone, ProceedStart, ProceedResume, ProceedAnalysis, Apply, InvocationKey, Fence, Wrote;
      var key := DeriveKey(run, step, id);
      var answer := Append(TOOL_COMPLETED, NoPayload, Some(key), false, Invoked(id));
      passage := PassageOf(answer);
    }

    /** A decision that commits admits the call; one that does not terminates the step. */
    method DecidePolicy() returns (passage: Passage)
      requires Valid() && body.pc.Agent?
      modifies this`body, this`script, this`at, store
      ensures Valid() && Through(passage, old(body.cycles)) && Called(old(script), RecordDecision, passage)
      ensures Quiet(old(store.events), store.events)
      ensures old(Sound()) ==> passage.Passed? && Writes(old(store.View()), [ToolLine(RecordDecision)], old(StateOf(store.View())))
    {
      hide Tools, Clean, Alone, ProceedStart, ProceedResume, ProceedAnalysis, Wrote, Fence;
      var answer := AppendDecision();
      passage := PassageOf(answer);
      if answer.Replied? && !Landed(answer) {
        passage := Terminate();
      }
    }

    /** append_policy_decision; an exception that follows its commit is one of the agent's next statement. */
    method AppendDecision() returns (answer: Answer)
      requires Valid() && body.pc.Agent?
      modifies this`body, this`script, this`at, store
      ensures Valid() && Went(old(store.View()), old(body), RecordDecision, answer)
      ensures Noted(old(script), RecordDecision, answer) && Quiet(old(store.events), store.events)
      ensures old(Sound()) ==> Landed(answer) && Writes(old(store.View()), [ToolLine(RecordDecision)], old(StateOf(store.View())))
    {
      hide NextBody, Alone, Tools, Clean, Went, Noted, Wrote;
      ghost var before := store.View();
      var fate, reply := fates(at), Rows(0);
      if fate.Fine? {
        reply := store.AppendPolicyDecision(run, step, epoch, NoPayload);
        FencedRows(before, AppendPolicy(run, step, epoch, NoPayload));
      }
      answer := AnswerOf(fate, reply);
      if old(Sound()) {
        AppendWrites(before, run, step, epoch, PolicyDecision, NoPayload, None);
        StillSound(before, [Plainly(PolicyDecision)], StateOf(before));
      }
      LostIsNothing(before);
      OpSettled(step, epoch, body, RecordDecision);
      ghost var _ := Took(before, RecordDecision, reply);
    }

    /** The row faults, at the claim's own epoch, and the run of the agent is over. */
    method Terminate() returns (passage: Passage)
      requires Valid() && body.pc.Terminating?
      modifies this`body, this`script, this`at, store
      ensures Valid() && passage.Thrown? && Through(passage, old(body.cycles))
      ensures Plain(old(script))
      ensures store.events == old(store.events)
      ensures old(Sound()) ==> passage == Thrown(false) && Faulted(old(store.View()))
    {
      hide Tools, Clean, Alone, ProceedStart, ProceedResume, ProceedAnalysis, Fence;
      var answer := FaultRow();
      passage := Thrown(answer.Threw? && answer.lookup);
    }

    /** step.suspended, and in a second transaction the hold that gives the lease up. */
    method Suspend(ids: seq<string>) returns (outcome: Outcome)
      requires Valid() && body.pc.Suspending? && body.asking == ids
      modifies this`body, this`script, this`at, store
      ensures Valid() && body.pc == Done(outcome)
      ensures Plain(old(script))
      ensures outcome.Succeeded? ==> body.asking == ids
      ensures store.events != old(store.events) ==>
                && Fence(old(store.View()), step, epoch) && run in old(store.runs)
                && store.events == old(store.events)
                   + [Event(run, old(store.runs)[run].nextSeq + 1, StepSuspended, Some(step), None, PendingCalls(ids),
                            ByLease(step, epoch))]
      ensures store.steps != old(store.steps) ==> store.events != old(store.events) && Released(old(store.View()))
      ensures outcome.Succeeded? ==>
                && store.events != old(store.events)
                && (Holds(old(store.View()), worker, step, epoch) ==> store.steps[step].awaiting)
      ensures old(Sound()) ==> Followed(old(store.View()), SuspendTrace(old(store.View()), ids)) && outcome.Succeeded?
    {
      hide Tools, Clean, Alone, Fence, Wrote;
      var recorded := RecordSuspended(ids);
      if !recorded {
        return Raised;
      }
      ghost var mid := store.View();
      var answer := GiveUp();
      outcome := if answer.Threw? then Raised else Succeeded;
      if old(Sound()) {
        LeftFollowed(mid, SuspendTrace(mid, ids).row, outcome);
        FollowedThen(old(store.View()), mid, [Line(StepSuspended, PendingCalls(ids), None)], StateOf(mid),
                     Trace([], StateOf(mid), SuspendTrace(mid, ids).row, outcome));
      }
    }

    method RecordSuspended(ids: seq<string>) returns (recorded: bool)
      requires Valid() && body.pc.Suspending? && body.asking == ids
      modifies this`body, this`script, this`at, store
      ensures Valid() && body.pc == (if recorded then Holding else Done(Raised)) && Plain(old(script))
      ensures recorded ==> body.asking == ids
      ensures store.steps == old(store.steps) && store.now == old(store.now)
      ensures store.events != old(store.events) ==>
                && Fence(old(store.View()), step, epoch) && run in old(store.runs)
                && store.events == old(store.events)
                   + [Event(run, old(store.runs)[run].nextSeq + 1, StepSuspended, Some(step), None, PendingCalls(ids),
                            ByLease(step, epoch))]
      ensures recorded ==> store.events != old(store.events)
      ensures old(Sound()) ==>
                recorded && Writes(old(store.View()), [Line(StepSuspended, PendingCalls(ids), None)], old(StateOf(store.View())))
    {
      hide Tools, Clean, Alone, ProceedStart, ProceedResume, ProceedAnalysis, AppendStepKind, Fence, Wrote;
      var answer := Append(StepSuspended, PendingCalls(ids), None, true, Go);
      recorded := Landed(answer);
    }

    /** The hold: a row that no longer holds this claim is left as it is. */
    method GiveUp() returns (answer: Answer)
      requires Valid() && body.pc.Holding?
      modifies this`body, this`script, this`at, store
      ensures Valid() && body.pc == Done(if answer.Threw? then Raised else Succeeded)
      ensures Plain(old(script))
      ensures answer.Replied? ==> body.asking == old(body.asking)
      ensures store.events == old(store.events)
      ensures store.steps == old(store.steps) || Released(old(store.View()))
      ensures answer.Replied? && Holds(old(store.View()), worker, step, epoch) ==> store.steps[step].awaiting
      ensures old(Sound()) ==>
                && answer.Replied?
                && Left(old(store.View()),
                        if old(store.steps[step]).owner == Some(worker) then HeldRow(old(store.steps[step])) else old(store.steps[step]))
    {
      hide Tools, Clean, Alone, ProceedStart, ProceedResume, ProceedAnalysis, Fence;
      answer := HoldRow();
    }

    /** _body_resume and resume_step: the suspension's pending calls, the decisions of the cycle, and
        either the resumed agent or the refusal that fails the run. */
    method Resume(agent: AgentRun) returns (outcome: Outcome)
      requires Valid() && body.pc.ResumeRef? && AgentCalls(agent) && body.cycles > 0
      requires Keyed(store.events) && D.KeysUnique(store.events)
      modifies this`body, this`script, this`at, store
      ensures Valid() && body.pc == Done(outcome)
      ensures MadeSome(Tools(old(script)), Tools(script), agent.calls)
      ensures !agent.ending.Fails? && Clean(old(script)) ==> Clean(script)
      ensures outcome.Succeeded? ==> !agent.ending.Fails? && Tools(script) == Tools(old(script)) + agent.calls
      ensures old(Sound()) ==>
                Followed(old(store.View()), ResumeTrace(old(store.View()), agent))
                && outcome == ResumeTrace(old(store.View()), agent).outcome
    {
      hide Tools, Clean, Alone, LatestPending, Wrote, Fence, P.ResultsForCycle;
      var pending := LatestPending(store.events, step);
      var answer := ReadRef();
      if answer.Threw? {
        return Raised;
      }
      if pending.None? {
        RecordFailure();
        OnlyLogged(old(store.View()), [Plainly(StepFailed)], StateOf(old(store.View())), Raised);
        return Raised;
      }
      var cycle := store.steps[step].cycles;
      answer := ReadCycle();
      if answer.Threw? {
        Handle(answer.lookup, true);
        return Raised;
      }
      outcome := Decided(pending.value, cycle, agent);
    }

    /** The decisions of the cycle, and either the resumed agent or the refusal. */
    method Decided(pending: seq<string>, cycle: nat, agent: AgentRun) returns (outcome: Outcome)
      requires Valid() && body.pc.ResumeSuspension? && AgentCalls(agent) && body.cycles > 0
      requires body.cycle == cycle && body.pending == pending
      requires Keyed(store.events) && D.KeysUnique(store.events)
      modifies this`body, this`script, this`at, store
      ensures Valid() && body.pc == Done(outcome)
      ensures MadeSome(Tools(old(script)), Tools(script), agent.calls)
      ensures !agent.ending.Fails? && Clean(old(script)) ==> Clean(script)
      ensures outcome.Succeeded? ==> !agent.ending.Fails? && Tools(script) == Tools(old(script)) + agent.calls
      ensures old(Sound()) ==>
                Followed(old(store.View()), DecidedTrace(old(store.View()), pending, cycle, agent))
                && outcome == DecidedTrace(old(store.View()), pending, cycle, agent).outcome
    {
      hide Tools, Clean, Alone, Wrote, Fence, P.ResultsForCycle;
      var db := Db(store.runs, store.steps, store.events, store.now);
      var results := P.ApprovalResultsForCycle(db, step, cycle, pending, store.events);
      var answer := ReadDecisions(cycle);
      if answer.Threw? && !answer.lookup {
        RecordFailure();
        return Raised;
      }
      if answer.Threw? || results.None? {
        Refuse();
        OnlyLogged(old(store.View()), RefusalLines(StateOf(old(store.View()))), Closed(StateOf(old(store.View())), false), Raised);
        return Raised;
      }
      outcome := GoOn(agent);
    }

    /** step.resumed, then the agent. */
    method GoOn(agent: AgentRun) returns (outcome: Outcome)
      requires Valid() && body.pc.Resuming? && AgentCalls(agent) && body.cycles > 0
      modifies this`body, this`script, this`at, store
      ensures Valid() && body.pc == Done(outcome)
      ensures MadeSome(Tools(old(script)), Tools(script), agent.calls)
      ensures !agent.ending.Fails? && Clean(old(script)) ==> Clean(script)
      ensures outcome.Succeeded? ==> !agent.ending.Fails? && Tools(script) == Tools(old(script)) + agent.calls
      ensures old(Sound()) ==>
                Followed(old(store.View()), After([Plainly(StepResumed)], StateOf(old(store.View())), old(store.View()), agent))
                && outcome == After([Plainly(StepResumed)], StateOf(old(store.View())), old(store.View()), agent).outcome
    {
      hide Tools, Clean, Alone, Wrote, Fence, Followed;
      var passage := RecordResumed();
      if passage.Thrown? {
        Handle(passage.lookup, true);
        return Raised;
      }
      ghost var mid := store.View();
      ghost var ran: Passage;
      outcome, ran := RunAgent(agent, true);
      if old(Sound()) {
        AfterRun(old(store.View()), mid, [Plainly(StepResumed)], StateOf(mid), agent);
      }
    }

    /** Lines that take no key, and then the agent. */
    ghost function After(first: seq<Line>, state: RunState, db: Db, agent: AgentRun): Trace
      requires step in db.steps
    {
      var t := AgentTrace(db.events, db.steps[step], state, agent);
      t.(lines := first + t.lines)
    }

    lemma AfterRun(before: Db, mid: Db, first: seq<Line>, state: RunState, agent: AgentRun)
      requires step in before.steps && Wrote(before, mid, run, step, epoch, first, state) && mid.steps == before.steps
      requires StateOf(mid) == state && forall i :: 0 <= i < |first| ==> first[i].kind != ToolInvoked
      requires Followed(mid, RunTrace(mid, agent))
      ensures Followed(before, After(first, state, before, agent))
      ensures RunTrace(mid, agent).outcome == After(first, state, before, agent).outcome
    {
      hide Wrote, Followed, AgentTrace;
      SameTrace(before, mid, first, state, agent);
      FollowedThen(before, mid, first, state, RunTrace(mid, agent));
    }

    lemma SameTrace(before: Db, mid: Db, first: seq<Line>, state: RunState, agent: AgentRun)
      requires step in before.steps && Wrote(before, mid, run, step, epoch, first, state) && mid.steps == before.steps
      requires forall i :: 0 <= i < |first| ==> first[i].kind != ToolInvoked
      ensures AgentTrace(mid.events, mid.steps[step], state, agent) == AgentTrace(before.events, before.steps[step], state, agent)
    {
      hide Wrote, ToolLines;
      SameLines(before, mid, first, state, agent.calls);
    }

    lemma {:induction false} SameLines(before: Db, mid: Db, first: seq<Line>, state: RunState, calls: seq<Choice>)
      requires Wrote(before, mid, run, step, epoch, first, state)
      requires forall i :: 0 <= i < |first| ==> first[i].kind != ToolInvoked
      ensures ToolLines(mid.events, calls) == ToolLines(before.events, calls)
    {
      hide Wrote, ToolKeyTaken;
      if calls != [] {
        var k := |calls| - 1;
        SameLines(before, mid, first, state, calls[..k]);
        if calls[k].Invoke? {
          TakenAfter(before, mid, run, step, epoch, first, state, InvocationKey(run, step, calls[k].call));
        }
      }
    }

    ghost function DecidedTrace(db: Db, pending: seq<string>, cycle: nat, agent: AgentRun): Trace
      requires step in db.steps
    {
      if P.ResultsForCycle(db, step, cycle, pending).None?
      then Trace(RefusalLines(StateOf(db)), Closed(StateOf(db), false), db.steps[step], Raised)
      else After([Plainly(StepResumed)], StateOf(db), db, agent)
    }

    /** A resume: without a suspension to resume from it fails; refused, it fails its run; otherwise it is
        recorded and the agent goes on. */
    ghost function ResumeTrace(db: Db, agent: AgentRun): Trace
      requires step in db.steps
    {
      match LatestPending(db.events, step)
      case None => Trace([Plainly(StepFailed)], StateOf(db), db.steps[step], Raised)
      case Some(pending) => DecidedTrace(db, pending, db.steps[step].cycles, agent)
    }

    /** What a read leaves alone. */
    ghost predicate Kept(before: seq<Choice>, cycles: nat)
      reads this
    {
      body.cycles == cycles && Plain(before)
    }

    method ReadRef() returns (answer: Answer)
      requires Valid() && body.pc.ResumeRef?
      modifies this`body, this`script, this`at
      ensures Valid() && Kept(old(script), old(body.cycles))
      ensures if answer.Threw? then body.pc == Done(Raised)
              else match LatestPending(store.events, step)
                   case None => body.pc.FailEvent?
                   case Some(ids) => body.pc.ResumeCycle? && body.pending == ids
      ensures (forall i: nat :: fates(i).Fine?) ==> answer.Replied?
    {
      hide Tools, Clean, Alone, ProceedStart, ProceedWork, ProceedAnalysis, LatestPending;
      answer := Reading(Go);
    }

    method ReadCycle() returns (answer: Answer)
      requires Valid() && body.pc.ResumeCycle?
      modifies this`body, this`script, this`at
      ensures Valid() && Kept(old(script), old(body.cycles))
      ensures if answer.Threw? then body.pc == (if answer.lookup then Done(Raised) else FailEvent)
              else body.pc.ResumeSuspension? && body.cycle == store.steps[step].cycles && body.pending == old(body.pending)
      ensures (forall i: nat :: fates(i).Fine?) ==> answer.Replied?
    {
      hide Tools, Clean, Alone, ProceedStart, ProceedWork, ProceedAnalysis;
      answer := Reading(Go);
    }

    /** The two queries of the decision lookup. A LookupError of their own is a refusal like the lookup's. */
    method ReadDecisions(cycle: nat) returns (answer: Answer)
      requires Valid() && body.pc.ResumeSuspension? && body.cycle == cycle
      modifies this`body, this`script, this`at
      ensures Valid() && Kept(old(script), old(body.cycles))
      ensures if answer.Threw? then body.pc == (if answer.lookup then RefuseEvent else FailEvent)
              else match P.ResultsForCycle(store.View(), step, cycle, old(body.pending))
                   case None => body.pc.RefuseEvent?
                   case Some(approvals) => body.pc.Resuming? && body.approvals == approvals
      ensures (forall i: nat :: fates(i).Fine?) ==> answer.Replied?
    {
      hide Tools, Clean, Alone, CommittedDecisions, Approvals, Suspensions;
      answer := ReadSuspension();
      if answer.Replied? && NthSuspension(store.events, step, cycle).Some? {
        answer := ReadCommitted();
      }
    }

    method ReadSuspension() returns (answer: Answer)
      requires Valid() && body.pc.ResumeSuspension?
      modifies this`body, this`script, this`at
      ensures Valid() && Kept(old(script), old(body.cycles)) && body.pending == old(body.pending)
      ensures if answer.Threw? then body.pc == (if answer.lookup then RefuseEvent else FailEvent)
              else match NthSuspension(store.events, step, old(body.cycle))
                   case None => body.pc.RefuseEvent?
                   case Some(nth) => body.pc.ResumeDecisions? && body.suspension == nth
      ensures (forall i: nat :: fates(i).Fine?) ==> answer.Replied?
    {
      hide Tools, Clean, Alone, ProceedStart, ProceedWork, ProceedAnalysis, NthSuspension;
      answer := Reading(Go);
    }

    method ReadCommitted() returns (answer: Answer)
      requires Valid() && body.pc.ResumeDecisions?
      modifies this`body, this`script, this`at
      ensures Valid() && Kept(old(script), old(body.cycles))
      ensures if answer.Threw? then body.pc == (if answer.lookup then RefuseEvent else FailEvent)
              else match Approvals(CommittedDecisions(store.events, run, old(body.suspension)), old(body.pending))
                   case None => body.pc.RefuseEvent?
                   case Some(approvals) => body.pc.Resuming? && body.approvals == approvals
      ensures (forall i: nat :: fates(i).Fine?) ==> answer.Replied?
    {
      hide Tools, Clean, Alone, ProceedStart, ProceedWork, ProceedAnalysis, CommittedDecisions, Approvals;
      answer := Reading(Go);
    }

    /** The refusal: step.failed, then run.failed, inside the handlers of the resume. */
    method Refuse()
      requires Valid() && body.pc.RefuseEvent?
      modifies this`body, this`script, this`at, store
      ensures Valid() && body.pc == Done(Raised)
      ensures Plain(old(script))
      ensures old(Sound()) ==>
                Writes(old(store.View()), RefusalLines(old(StateOf(store.View()))), Closed(old(StateOf(store.View())), false))
    {
      hide Tools, Clean, Alone, Fence, Wrote;
      var answer := RecordRefusal();
      ghost var mid := store.View();
      if Landed(answer) {
        answer := EndRefused();
        if old(Sound()) && StateOf(mid) == Running {
          WritesThen(old(store.View()), mid, [Plainly(StepFailed)], Closing(StateOf(mid), false), StateOf(mid), Closed(StateOf(mid), false));
        }
        if Landed(answer) {
          return;
        }
        if old(Sound()) {
          WritesThen(old(store.View()), mid, [Plainly(StepFailed)], [], StateOf(mid), StateOf(mid));
        }
      }
      ghost var late := store.View();
      Handle(answer.Threw? && answer.lookup, true);
      if old(Sound()) {
        WritesThen(old(store.View()), late, [Plainly(StepFailed)] + [], [Plainly(StepFailed)], StateOf(mid), StateOf(mid));
        assert [Plainly(StepFailed)] + [] == [Plainly(StepFailed)];
      }
    }

    ghost function RefusalLines(state: RunState): seq<Line> {
      [Plainly(StepFailed)] + [Plainly(if state == Running then RunFailed else StepFailed)]
    }

    method RecordRefusal() returns (answer: Answer)
      requires Valid() && body.pc.RefuseEvent?
      modifies this`body, this`script, this`at, store
      ensures Valid() && Plain(old(script))
      ensures body.pc == (if Landed(answer) then RefuseTerminal else if answer.Threw? && answer.lookup then Done(Raised) else FailEvent)
      ensures old(Sound()) ==> Landed(answer) && Writes(old(store.View()), [Plainly(StepFailed)], old(StateOf(store.View())))
    {
      hide Tools, Clean, Alone, ProceedStart, ProceedWork, ProceedAnalysis, Apply, Added, Wrote, Fence;
      answer := Append(StepFailed, NoPayload, None, true, Go);
    }

    method EndRefused() returns (answer: Answer)
      requires Valid() && body.pc.RefuseTerminal?
      modifies this`body, this`script, this`at, store
      ensures Valid() && Plain(old(script))
      ensures body.pc == (if Landed(answer) || (answer.Threw? && answer.lookup) then Done(Raised) else FailEvent)
      ensures old(Sound()) ==>
                && answer.Replied? && (Landed(answer) <==> old(StateOf(store.View())) == Running)
                && Writes(old(store.View()), Closing(old(StateOf(store.View())), false),
                       Closed(old(StateOf(store.View())), false))
    {
      hide Tools, Clean, Alone, ProceedStart, ProceedWork, ProceedAnalysis, Apply, Added, Wrote, Fence;
      answer := EndRun(false);
    }

    method RecordResumed() returns (passage: Passage)
      requires Valid() && body.pc.Resuming? && body.cycles > 0
      modifies this`body, this`script, this`at, store
      ensures Valid() && Through(passage, old(body.cycles))
      ensures Plain(old(script))
      ensures old(Sound()) ==> passage.Passed? && Writes(old(store.View()), [Plainly(StepResumed)], old(StateOf(store.View())))
    {
      hide Tools, Clean, Alone, ProceedStart, ProceedWork, ProceedAnalysis, Apply, Added, Wrote, Fence;
      var answer := Append(StepResumed, NoPayload, None, true, Go);
      passage := PassageOf(answer);
    }

    /** The body make_step_body returns: cap, resume, role, start, configuration, agent; and out of it
        wherever a statement throws, by the handlers around that statement. */
    method ExecutorBody(principal: bool, roleLoads: bool, roleCompiles: bool, configured: bool, agent: AgentRun)
      returns (outcome: Outcome)
      requires Valid() && body.pc.ReadCycles? && AgentCalls(agent)
      requires Keyed(store.events) && D.KeysUnique(store.events)
      modifies this`body, this`script, this`at, store
      ensures Valid() && body.pc == Done(outcome)
      ensures MadeSome(Tools(old(script)), Tools(script), agent.calls)
      ensures principal && roleLoads && roleCompiles && configured && !agent.ending.Fails? && Clean(old(script)) ==>
                Clean(script)
      ensures outcome.Succeeded? ==> Smooth(script)
      ensures outcome.Succeeded? && principal && roleLoads && roleCompiles ==>
                && !agent.ending.Fails? && Tools(script) == Tools(old(script)) + agent.calls
                && (configured || old(store.steps[step].cycles) > 0)
      ensures old(Sound()) ==>
                Followed(old(store.View()), ExecutorTrace(old(store.View()), principal, roleLoads, roleCompiles, configured, agent))
                && outcome == ExecutorTrace(old(store.View()), principal, roleLoads, roleCompiles, configured, agent).outcome
    {
      hide Tools, Clean, Alone, Smooth, Wrote, Fence, ResumeTrace, FreshTrace;
      var cycles := store.steps[step].cycles;
      var answer := ReadPrincipalAndCycles(principal);
      if answer.Threw? {
        return Raised;
      }
      if !principal {
        if Sound() {
          NothingFollowed();
        }
        return Succeeded;
      }
      if cycles >= cfg.cap {
        FailAtCap();
        OnlyLogged(old(store.View()), [Plainly(Other("step.approval.cap.exceeded"))] + Closing(StateOf(old(store.View())), false),
                   Closed(StateOf(old(store.View())), false), Raised);
        return Raised;
      }
      if cycles > 0 {
        outcome := Resume(agent);
        return;
      }
      outcome := FreshBody(roleLoads, roleCompiles, configured, agent);
    }

    lemma NothingFollowed()
      requires step in store.steps && run in store.runs
      ensures Followed(store.View(), Trace([], StateOf(store.View()), store.steps[step], Succeeded))
    {
      WroteNothing(store.View(), run, step, epoch);
      assert store.steps[step := store.steps[step]] == store.steps;
    }

    /** The role, the start and the agent of a step that has not suspended. */
    method FreshBody(roleLoads: bool, roleCompiles: bool, configured: bool, agent: AgentRun) returns (outcome: Outcome)
      requires Valid() && body.pc.LoadRole? && AgentCalls(agent) && body.cycles == 0
      modifies this`body, this`script, this`at, store
      ensures Valid() && body.pc == Done(outcome)
      ensures MadeSome(Tools(old(script)), Tools(script), agent.calls)
      ensures roleLoads && roleCompiles && configured && !agent.ending.Fails? && Clean(old(script)) ==> Clean(script)
      ensures outcome.Succeeded? && roleLoads && roleCompiles ==>
                configured && !agent.ending.Fails? && Tools(script) == Tools(old(script)) + agent.calls
      ensures old(Sound()) ==>
                Followed(old(store.View()), FreshTrace(old(store.View()), roleLoads, roleCompiles, configured, agent))
                && outcome == FreshTrace(old(store.View()), roleLoads, roleCompiles, configured, agent).outcome
    {
      hide Tools, Clean, Alone, Wrote, Fence, AgentTrace;
      var answer := LoadRoleOf(roleLoads);
      if answer.Threw? {
        return Raised;
      }
      if !roleLoads {
        outcome := RefuseRole(false);
        OnlyLogged(old(store.View()), [Plainly(Other("role.load.failed"))], StateOf(old(store.View())), outcome);
        return;
      }
      var ceiling := run in store.runs && store.runs[run].nextSeq > cfg.spendCeiling;
      answer := Compile(roleCompiles);
      if answer.Threw? {
        return Raised;
      }
      if !roleCompiles {
        outcome := RefuseRole(true);
        OnlyLogged(old(store.View()), [Plainly(Other("role.compile.refused"))], StateOf(old(store.View())), outcome);
        return;
      }
      outcome := Work(ceiling, configured, agent);
    }

    /** The start, the configuration, and the agent. */
    method Work(ceiling: bool, configured: bool, agent: AgentRun) returns (outcome: Outcome)
      requires Valid() && body.pc.Starting? && body.ceiling == ceiling && AgentCalls(agent) && body.cycles == 0
      modifies this`body, this`script, this`at, store
      ensures Valid() && body.pc == Done(outcome)
      ensures MadeSome(Tools(old(script)), Tools(script), agent.calls)
      ensures configured && !agent.ending.Fails? && Clean(old(script)) ==> Clean(script)
      ensures outcome.Succeeded? ==> configured && !agent.ending.Fails? && Tools(script) == Tools(old(script)) + agent.calls
      ensures old(Sound()) ==>
                Followed(old(store.View()), WorkTrace(old(store.View()), ceiling, configured, agent))
                && outcome == WorkTrace(old(store.View()), ceiling, configured, agent).outcome
    {
      hide Tools, Clean, Alone, Wrote, Fence, Followed, AgentTrace;
      var started := StartStep(ceiling);
      if !started {
        return Raised;
      }
      var answer := Prepare(configured);
      if answer.Threw? {
        return Raised;
      }
      ghost var mid := store.View();
      if !configured {
        RecordFailure();
        if old(Sound()) {
          Unconfigured(old(store.View()), mid, ceiling, agent);
        }
        return Raised;
      }
      ghost var ran: Passage;
      outcome, ran := RunAgent(agent, false);
      if old(Sound()) {
        AfterRun(old(store.View()), mid, StartLines(ceiling), StateOf(mid), agent);
      }
    }

    lemma Unconfigured(before: Db, mid: Db, ceiling: bool, agent: AgentRun)
      requires step in before.steps && mid.steps == before.steps && StateOf(mid) == Begun(StateOf(before))
      requires Wrote(before, mid, run, step, epoch, StartLines(ceiling), StateOf(mid)) && Writes(mid, [Plainly(StepFailed)], StateOf(mid))
      ensures Followed(before, WorkTrace(before, ceiling, false, agent))
    {
      hide Wrote, Fence, Followed;
      WritesThen(before, mid, StartLines(ceiling), [Plainly(StepFailed)], StateOf(mid), StateOf(mid));
      OnlyLogged(before, StartLines(ceiling) + [Plainly(StepFailed)], StateOf(mid), Raised);
    }

    ghost function WorkTrace(db: Db, ceiling: bool, configured: bool, agent: AgentRun): Trace
      requires step in db.steps
    {
      if configured then After(StartLines(ceiling), Begun(StateOf(db)), db, agent)
      else Trace(StartLines(ceiling) + [Plainly(StepFailed)], Begun(StateOf(db)), db.steps[step], Raised)
    }

    /** A step that has not suspended: its role refused, or started, paged if the run has more events than
        the ceiling, failed if it is not configured, and otherwise the agent. */
    ghost function FreshTrace(db: Db, roleLoads: bool, roleCompiles: bool, configured: bool, agent: AgentRun): Trace
      requires step in db.steps
    {
      if !roleLoads then Trace([Plainly(Other("role.load.failed"))], StateOf(db), db.steps[step], Succeeded)
      else if !roleCompiles then Trace([Plainly(Other("role.compile.refused"))], StateOf(db), db.steps[step], Succeeded)
      else WorkTrace(db, run in db.runs && db.runs[run].nextSeq > cfg.spendCeiling, configured, agent)
    }

    /** The executor's body: nothing without a principal; the cap's refusal at the cap; a resume after a
        cycle; a fresh run otherwise. */
    ghost function ExecutorTrace(db: Db, principal: bool, roleLoads: bool, roleCompiles: bool, configured: bool, agent: AgentRun): Trace
      requires step in db.steps
    {
      var row, state := db.steps[step], StateOf(db);
      if !principal then Trace([], state, row, Succeeded)
      else if row.cycles >= cfg.cap
      then Trace([Plainly(Other("step.approval.cap.exceeded"))] + Closing(state, false), Closed(state, false), row, Raised)
      else if row.cycles > 0 then ResumeTrace(db, agent)
      else FreshTrace(db, roleLoads, roleCompiles, configured, agent)
    }

    method ReadPrincipalAndCycles(principal: bool) returns (answer: Answer)
      requires Valid() && body.pc.ReadCycles?
      modifies this`body, this`script, this`at
      ensures Valid()
      ensures var n := store.steps[step].cycles;
              if answer.Threw? then body.pc == Done(Raised)
              else if !principal then body.pc == Done(Succeeded)
              else body.cycles == n
                   && if n >= cfg.cap then body.pc.CapEvent? else if n > 0 then body.pc.ResumeRef? else body.pc.LoadRole?
      ensures Tools(script) == Tools(old(script)) && (principal && Clean(old(script)) ==> Clean(script))
      ensures (forall i: nat :: fates(i).Fine?) ==> answer.Replied?
    {
      hide Tools, Clean, Alone, ProceedWork, ProceedResume, ProceedAnalysis;
      answer := Reading(if principal then Go else Otherwise);
    }

    method LoadRoleOf(loads: bool) returns (answer: Answer)
      requires Valid() && body.pc.LoadRole?
      modifies this`body, this`script, this`at
      ensures Valid() && body.cycles == old(body.cycles)
      ensures if answer.Threw? then body.pc == Done(Raised)
              else if loads then body.pc.CompileRole? else body.pc.RoleRefusal?
      ensures Tools(script) == Tools(old(script)) && (loads && Clean(old(script)) ==> Clean(script))
      ensures (forall i: nat :: fates(i).Fine?) ==> answer.Replied?
    {
      hide Tools, Clean, Alone, ProceedWork, ProceedResume, ProceedAnalysis;
      answer := Reading(if loads then Go else Otherwise);
    }

    method Compile(compiles: bool) returns (answer: Answer)
      requires Valid() && body.pc.CompileRole?
      modifies this`body, this`script, this`at
      ensures Valid() && body.cycles == old(body.cycles)
      ensures if answer.Threw? then body.pc == Done(Raised)
              else if !compiles then body.pc.CompileRefusal?
              else body.pc.Starting? && body.ceiling == (run in store.runs && store.runs[run].nextSeq > cfg.spendCeiling)
      ensures Tools(script) == Tools(old(script)) && (compiles && Clean(old(script)) ==> Clean(script))
      ensures (forall i: nat :: fates(i).Fine?) ==> answer.Replied?
    {
      hide Tools, Clean, Alone, ProceedWork, ProceedResume, ProceedAnalysis;
      answer := Reading(if compiles then Go else Otherwise);
    }

    method Prepare(configured: bool) returns (answer: Answer)
      requires Valid() && body.pc.Preparing?
      modifies this`body, this`script, this`at
      ensures Valid() && body.cycles == old(body.cycles)
      ensures if answer.Threw? then body.pc == Done(Raised) else if configured then body.pc.Agent? else body.pc.FailEvent?
      ensures Tools(script) == Tools(old(script)) && (configured && Clean(old(script)) ==> Clean(script))
      ensures (forall i: nat :: fates(i).Fine?) ==> answer.Replied?
    {
      hide Tools, Clean, Alone, ProceedWork, ProceedResume, ProceedAnalysis;
      answer := Reading(if configured then Go else Otherwise);
    }
  }
}
