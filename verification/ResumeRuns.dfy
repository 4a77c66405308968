// Runs of the system through a suspension, a decision and a resume: one in which the resume goes on,
// one in which the resumed agent throws a LookupError, and one in which a call id is asked twice.
module ResumeRuns {
  import opened EventTypes
  import opened Schema
  import opened AppendPaths
  import opened Operations
  import opened Protocol
  import opened DecisionKeys
  import opened C = Counterexamples
  import R = ResumeInvariants
  import E = EndedSteps

  const ASKED: seq<string> := ["a"]
  const GRANTED: map<string, bool> := map["a" := true]

  function StepRow(owner: Option<WorkerId>, state: StepState, epoch: nat, lease: Option<int>, cycles: nat, awaiting: bool): Step {
    Step(0, state, owner, epoch, lease, "default", 0, cycles, awaiting)
  }

  function Tables(n: nat, row: Step, events: seq<Event>, now: int): Db {
    Db(map[0 := Run(Running, n)], map[0 := row], events, now)
  }

  function Suspended(epoch: nat, n: nat): Event {
    Written(epoch, n, StepSuspended, PendingCalls(ASKED))
  }

  const DECIDED: Event := Event(0, 4, ApprovalGranted, Some(0), Some(DecisionKey(3, "a")), NoPayload, ByDecision(3, "a", 0))

  const STARTED_LOG: seq<Event> := [REQUESTED, Written(1, 2, StepStarted, Ref("producer"))]
  const SUSPENDED_LOG: seq<Event> := STARTED_LOG + [Suspended(1, 3)]
  const DECIDED_LOG: seq<Event> := SUSPENDED_LOG + [DECIDED]
  const RESUMED_LOG: seq<Event> := DECIDED_LOG + [Written(2, 5, StepResumed, NoPayload)]
  const REASKED_LOG: seq<Event> := RESUMED_LOG + [Suspended(2, 6)]

  // ----- one action ---------------------------------------------------------------------

  predicate Acting(sys: Sys, epoch: nat) {
    && (0, epoch) in sys.bodies && 0 in sys.db.steps && sys.bodies[(0, epoch)].worker in sys.workers
    && !sys.workers[sys.bodies[(0, epoch)].worker].doing.Dead? && !sys.bodies[(0, epoch)].pc.Done?
  }

  /** A body's step that issues nothing. */
  lemma Moves(sys: Sys, epoch: nat, choice: Choice, next: Body)
    requires Acting(sys, epoch) && BodyOp(0, epoch, sys.bodies[(0, epoch)], choice).Nothing?
    requires next == NextBody(sys.db, sys.cfg, 0, sys.bodies[(0, epoch)], choice, Rows(0))
    ensures Act(sys, StepBody(0, epoch, choice)) == sys.(bodies := sys.bodies[(0, epoch) := next])
  {
    hide NextBody, BodyOp;
  }

  /** A body's step that appends one event. */
  lemma Writes(sys: Sys, epoch: nat, n: nat, row: Step, kind: Kind, payload: Payload, next: Body)
    requires Acting(sys, epoch) && sys.db == Tables(n, row, sys.db.events, sys.db.now) && row.run == 0
    requires !kind.ToolInvoked? && Fence(sys.db, 0, epoch)
    requires BodyOp(0, epoch, sys.bodies[(0, epoch)], Go) == AppendStep(0, 0, epoch, kind, payload, None)
    requires next == NextBody(sys.db, sys.cfg, 0, sys.bodies[(0, epoch)], Go, Committed(n + 1))
    ensures Act(sys, StepBody(0, epoch, Go))
            == Sys(Tables(n + 1, row, sys.db.events + [Event(0, n + 1, kind, Some(0), None, payload, ByLease(0, epoch))], sys.db.now),
                   sys.bodies[(0, epoch) := next], sys.workers, sys.cfg)
  {
    hide NextBody, BodyOp;
  }

  // ----- to a suspension ----------------------------------------------------------------

  function BodyIn(w: WorkerId, pc: Pc, cycles: nat, pending: seq<string>, cycle: nat, suspension: nat,
                  approvals: map<string, bool>, asking: seq<string>, held: bool): Body {
    Body(w, 0, false, pc, cycles, false, pending, cycle, suspension, approvals, asking, held)
  }

  const LEASED: Step := StepRow(Some(0), Leased, 1, Some(60), 0, false)
  const HELD: Step := StepRow(None, Runnable, 1, None, 0, true)
  const FREED: Step := StepRow(None, Runnable, 1, None, 1, false)
  const RECLAIMED: Step := StepRow(Some(0), Leased, 2, Some(60), 1, false)

  const FIRST: Body := BodyIn(0, Done(Succeeded), 0, [], 0, 0, map[], ASKED, true)

  /** The first claim at work. */
  function AtWork(n: nat, row: Step, log: seq<Event>, body: Body): Sys {
    Sys(Tables(n, row, log, 0), map[(0, 1) := body], map[0 := Worker("default", Executing(0, 1))], CFG)
  }

  const ASKING: Body := BodyIn(0, Suspending, 0, [], 0, 0, map[], ASKED, false)
  const HOLDING: Body := BodyIn(0, Holding, 0, [], 0, 0, map[], ASKED, false)

  lemma AgentStarts()
    ensures Act(AtWork(2, LEASED, STARTED_LOG, BodyAt(0, Preparing)), StepBody(0, 1, Go))
            == AtWork(2, LEASED, STARTED_LOG, BodyAt(0, Agent))
  {
    Moves(AtWork(2, LEASED, STARTED_LOG, BodyAt(0, Preparing)), 1, Go, BodyAt(0, Agent));
  }

  lemma AgentAsks()
    ensures Act(AtWork(2, LEASED, STARTED_LOG, BodyAt(0, Agent)), StepBody(0, 1, Ask(ASKED)))
            == AtWork(2, LEASED, STARTED_LOG, ASKING)
  {
    Moves(AtWork(2, LEASED, STARTED_LOG, BodyAt(0, Agent)), 1, Ask(ASKED), ASKING);
  }

  lemma AgentSuspends()
    ensures Act(AtWork(2, LEASED, STARTED_LOG, ASKING), StepBody(0, 1, Go)) == AtWork(3, LEASED, SUSPENDED_LOG, HOLDING)
  {
    Writes(AtWork(2, LEASED, STARTED_LOG, ASKING), 1, 2, LEASED, StepSuspended, PendingCalls(ASKED), HOLDING);
  }

  lemma HoldActs()
    ensures Act(AtWork(3, LEASED, SUSPENDED_LOG, HOLDING), StepBody(0, 1, Go)) == AtWork(3, HELD, SUSPENDED_LOG, FIRST)
  {
    assert Holds(Tables(3, LEASED, SUSPENDED_LOG, 0), 0, 0, 1);
  }

  function Held(): Sys {
    AtWork(3, HELD, SUSPENDED_LOG, FIRST).(workers := map[0 := Worker("default", Idle)])
  }

  lemma FinishActs()
    ensures Act(AtWork(3, HELD, SUSPENDED_LOG, FIRST), Finish(0)) == Held()
  {
  }

  lemma Then(before: seq<Action>, sys: Sys, a: Action, after: Sys) returns (actions: seq<Action>)
    requires Reach(Initial(CFG), before) == sys && Act(sys, a) == after
    ensures Reach(Initial(CFG), actions) == after && actions == before + [a]
  {
    hide Act, Reach;
    ReachSnoc(Initial(CFG), before, a);
    actions := before + [a];
  }

  lemma StartedRun() returns (actions: seq<Action>)
    ensures Reach(Initial(CFG), actions) == AtWork(2, LEASED, STARTED_LOG, BodyAt(0, Preparing))
  {
    hide Act, Reach;
    actions := C.Claimed();
    actions := Started(actions, Reach(Initial(CFG), actions), 0, 1);
  }

  /** From the claim through the agent's question to the worker idle again. */
  lemma SuspendedRun() returns (actions: seq<Action>)
    ensures Reach(Initial(CFG), actions) == Held()
  {
    hide Act, Reach;
    actions := StartedRun();
    AgentStarts();
    AgentAsks();
    AgentSuspends();
    HoldActs();
    FinishActs();
    hide AtWork, Held;
    actions := Then(actions, AtWork(2, LEASED, STARTED_LOG, BodyAt(0, Preparing)), StepBody(0, 1, Go),
                    AtWork(2, LEASED, STARTED_LOG, BodyAt(0, Agent)));
    actions := Then(actions, AtWork(2, LEASED, STARTED_LOG, BodyAt(0, Agent)), StepBody(0, 1, Ask(ASKED)),
                    AtWork(2, LEASED, STARTED_LOG, ASKING));
    actions := Then(actions, AtWork(2, LEASED, STARTED_LOG, ASKING), StepBody(0, 1, Go), AtWork(3, LEASED, SUSPENDED_LOG, HOLDING));
    actions := Then(actions, AtWork(3, LEASED, SUSPENDED_LOG, HOLDING), StepBody(0, 1, Go), AtWork(3, HELD, SUSPENDED_LOG, FIRST));
    actions := Then(actions, AtWork(3, HELD, SUSPENDED_LOG, FIRST), Finish(0), Held());
  }

  // ----- to a resume that goes on -------------------------------------------------------

  lemma {:induction false} SuspensionsOf()
    ensures Suspensions(SUSPENDED_LOG, 0) == [Suspended(1, 3)]
    ensures Suspensions(RESUMED_LOG, 0) == Suspensions(DECIDED_LOG, 0) == [Suspended(1, 3)]
    ensures Suspensions(REASKED_LOG, 0) == [Suspended(1, 3), Suspended(2, 6)]
  {
    SuspensionsSnoc([], REQUESTED, 0);
    SuspensionsSnoc([REQUESTED], Written(1, 2, StepStarted, Ref("producer")), 0);
    assert [] + [REQUESTED] == [REQUESTED];
    assert [REQUESTED] + [Written(1, 2, StepStarted, Ref("producer"))] == STARTED_LOG;
    SuspensionsSnoc(STARTED_LOG, Suspended(1, 3), 0);
    SuspensionsSnoc(SUSPENDED_LOG, DECIDED, 0);
    SuspensionsSnoc(DECIDED_LOG, Written(2, 5, StepResumed, NoPayload), 0);
    SuspensionsSnoc(RESUMED_LOG, Suspended(2, 6), 0);
  }

  lemma DecisionsSnoc(events: seq<Event>, e: Event)
    ensures CommittedDecisions(events + [e], 0, 3)
            == if IsDecisionRow(e, 0, DecisionPrefix(3))
               then CommittedDecisions(events, 0, 3)[e.key.value[|DecisionPrefix(3)|..] := e.kind.ApprovalGranted?]
               else CommittedDecisions(events, 0, 3)
  {
    assert (events + [e])[..|events|] == events;
  }

  lemma DecisionsOf()
    ensures CommittedDecisions(DECIDED_LOG, 0, 3) == CommittedDecisions(REASKED_LOG, 0, 3) == GRANTED
  {
    hide CommittedDecisions, DecisionPrefix;
    DecisionsSnoc([], REQUESTED);
    DecisionsSnoc([REQUESTED], Written(1, 2, StepStarted, Ref("producer")));
    assert [] + [REQUESTED] == [REQUESTED];
    assert [REQUESTED] + [Written(1, 2, StepStarted, Ref("producer"))] == STARTED_LOG;
    NoDecisions();
    DecisionsSnoc(STARTED_LOG, Suspended(1, 3));
    DecisionsSnoc(SUSPENDED_LOG, DECIDED);
    RowInLookup(DECIDED, 0, 3);
    DecisionsSnoc(DECIDED_LOG, Written(2, 5, StepResumed, NoPayload));
    DecisionsSnoc(RESUMED_LOG, Suspended(2, 6));
  }

  lemma NoDecisions()
    ensures CommittedDecisions([], 0, 3) == map[]
  {
  }

  predicate Resumable(db: Db) {
    && 0 in db.steps && db.steps[0].run == 0 && db.steps[0].cycles == 1
    && LatestPending(db.events, 0) == Some(ASKED) && NthSuspension(db.events, 0, 1) == Some(3)
    && CommittedDecisions(db.events, 0, 3) == GRANTED
  }

  /** A resuming body after its k-th read. */
  function Reader(w: WorkerId, k: nat): Body {
    if k == 0 then BodyAt(w, ReadCycles)
    else if k == 1 then BodyIn(w, ResumeRef, 1, [], 0, 0, map[], [], false)
    else if k == 2 then BodyIn(w, ResumeCycle, 1, ASKED, 0, 0, map[], [], false)
    else if k == 3 then BodyIn(w, ResumeSuspension, 1, ASKED, 1, 0, map[], [], false)
    else if k == 4 then BodyIn(w, ResumeDecisions, 1, ASKED, 1, 3, map[], [], false)
    else BodyIn(w, Resuming, 1, ASKED, 1, 3, GRANTED, [], false)
  }

  lemma ReadsOn(db: Db, w: WorkerId, epoch: nat, k: nat)
    requires Resumable(db) && k < 5
    ensures BodyOp(0, epoch, Reader(w, k), Go).Nothing? && !Reader(w, k).pc.Done? && Reader(w, k).worker == w
    ensures NextBody(db, CFG, 0, Reader(w, k), Go, Rows(0)) == Reader(w, k + 1)
  {
    hide LatestPending, NthSuspension, CommittedDecisions, Approvals;
    Lookup();
  }

  lemma Lookup()
    ensures Approvals(GRANTED, ASKED) == Some(GRANTED)
  {
    assert "a" in GRANTED && GRANTED != map[];
    assert (map id | id in ASKED && id in GRANTED :: GRANTED[id]) == GRANTED;
  }

  /** The first k reads of a resume whose step has one decided suspension, at seq 3. */
  lemma {:induction false} Resumes(before: seq<Action>, sys: Sys, w: WorkerId, epoch: nat, k: nat) returns (actions: seq<Action>)
    requires Reach(Initial(CFG), before) == sys && sys.cfg == CFG && Resumable(sys.db) && k <= 5
    requires (0, epoch) in sys.bodies && sys.bodies[(0, epoch)] == BodyAt(w, ReadCycles)
    requires w in sys.workers && sys.workers[w].doing == Executing(0, epoch)
    ensures Reach(Initial(CFG), actions) == sys.(bodies := sys.bodies[(0, epoch) := Reader(w, k)])
  {
    hide Act, Reach, NextBody, BodyOp, Resumable;
    if k == 0 {
      actions := before;
      assert sys.bodies[(0, epoch) := BodyAt(w, ReadCycles)] == sys.bodies;
    } else {
      actions := Resumes(before, sys, w, epoch, k - 1);
      var now := sys.(bodies := sys.bodies[(0, epoch) := Reader(w, k - 1)]);
      var next := sys.(bodies := sys.bodies[(0, epoch) := Reader(w, k)]);
      assert now.bodies[(0, epoch) := Reader(w, k)] == next.bodies;
      InSteps(sys.db);
      ReadsOn(sys.db, w, epoch, k - 1);
      hide Reader;
      Moves(now, epoch, Go, Reader(w, k));
      actions := Then(actions, now, StepBody(0, epoch, Go), next);
    }
  }

  lemma InSteps(db: Db)
    requires Resumable(db)
    ensures 0 in db.steps
  {
  }
  // ----- the decision and the second claim ----------------------------------------------

  const DECIDE: DbOp := AppendDecision(0, 0, [Pair("a", true)], 3)

  lemma DecideActs()
    ensures Decide(Tables(3, HELD, SUSPENDED_LOG, 0), 0, 0, [Pair("a", true)], 3)
            == (Tables(4, FREED, DECIDED_LOG, 0), Committed(4))
  {
    hide DecisionError, InsertDecisions;
    Admitted();
    InsertsOne();
    assert ClearHold(Tables(3, HELD, SUSPENDED_LOG, 0), 0) == Tables(3, FREED, SUSPENDED_LOG, 0);
  }

  lemma Admitted()
    ensures DecisionError(Tables(3, HELD, SUSPENDED_LOG, 0), 0, 0, 3).None?
  {
    hide Suspensions;
    SuspensionsOf();
    var log := Suspensions(SUSPENDED_LOG, 0);
    assert log[0].seqNo == 3;
    assert MaxSeq(log) == 3 by {
      assert log[..0] == [];
    }
  }

  lemma InsertsOne()
    ensures InsertDecisions(Tables(3, FREED, SUSPENDED_LOG, 0), 0, 0, 3, 0, [Pair("a", true)])
            == Some(Tables(4, FREED, DECIDED_LOG, 0))
  {
    hide InsertDecision;
    assert [Pair("a", true)][..0] == [];
    assert InsertDecisions(Tables(3, FREED, SUSPENDED_LOG, 0), 0, 0, 3, 0, []) == Some(Tables(3, FREED, SUSPENDED_LOG, 0));
    InsertActs();
  }

  lemma InsertActs()
    ensures InsertDecision(Tables(3, FREED, SUSPENDED_LOG, 0), 0, 0, 3, 0, Pair("a", true))
            == Some(Tables(4, FREED, DECIDED_LOG, 0))
  {
    hide DecisionKey;
    assert !HasKey(SUSPENDED_LOG, 0, DecisionKey(3, "a"));
    assert map[0 := Run(Running, 3)][0 := Run(Running, 4)] == map[0 := Run(Running, 4)];
  }

  lemma DecidedActs()
    ensures Act(Held(), Api(DECIDE)) == Held().(db := Tables(4, FREED, DECIDED_LOG, 0))
  {
    hide Decide;
    DecideActs();
  }

  /** The second claim at work, by the same worker. */
  function Second(n: nat, log: seq<Event>, body: Body): Sys {
    Sys(Tables(n, RECLAIMED, log, 0), map[(0, 1) := FIRST, (0, 2) := body], map[0 := Worker("default", Executing(0, 2))], CFG)
  }

  lemma ReclaimActs()
    ensures Act(Held().(db := Tables(4, FREED, DECIDED_LOG, 0)), TakeClaim(0, 0)) == Second(4, DECIDED_LOG, BodyAt(0, ReadCycles))
  {
    var sys := Held().(db := Tables(4, FREED, DECIDED_LOG, 0));
    assert Claimable(sys.db, 0, "default");
  }

  lemma DecidedResumable()
    ensures Resumable(Second(4, DECIDED_LOG, BodyAt(0, ReadCycles)).db)
  {
    hide Suspensions, CommittedDecisions;
    SuspensionsOf();
    DecisionsOf();
  }

  lemma ResumingRun() returns (actions: seq<Action>)
    ensures Reach(Initial(CFG), actions) == Second(4, DECIDED_LOG, Reader(0, 5))
  {
    hide Act, Reach;
    actions := SuspendedRun();
    DecidedActs();
    ReclaimActs();
    actions := Then(actions, Held(), Api(DECIDE), Held().(db := Tables(4, FREED, DECIDED_LOG, 0)));
    actions := Then(actions, Held().(db := Tables(4, FREED, DECIDED_LOG, 0)), TakeClaim(0, 0),
                    Second(4, DECIDED_LOG, BodyAt(0, ReadCycles)));
    actions := Reread(actions);
  }

  lemma Reread(before: seq<Action>) returns (actions: seq<Action>)
    requires Reach(Initial(CFG), before) == Second(4, DECIDED_LOG, BodyAt(0, ReadCycles))
    ensures Reach(Initial(CFG), actions) == Second(4, DECIDED_LOG, Reader(0, 5))
  {
    hide Act, Reach, Reader, Resumable;
    DecidedResumable();
    var sys := Second(4, DECIDED_LOG, BodyAt(0, ReadCycles));
    actions := Resumes(before, sys, 0, 2, 5);
    assert sys.bodies[(0, 2) := Reader(0, 5)] == Second(4, DECIDED_LOG, Reader(0, 5)).bodies;
  }

  lemma AskedOnce()
    ensures R.CallIdsNotReused(DECIDED_LOG, 0) && R.DecisionsNameAskedCalls(DECIDED_LOG, 0)
  {
    hide Suspensions;
    SuspensionsOf();
    assert R.Asked(Suspended(1, 3), "a");
  }

  /** A resume that goes on is reachable with call ids used once and decisions naming asked calls: it
      holds the one decision, a grant, of the one suspension. */
  lemma ResumeGoesOn() returns (actions: seq<Action>)
    ensures var sys := Reach(Initial(CFG), actions);
            && (0, 2) in sys.bodies && sys.bodies[(0, 2)].pc.Resuming? && Fence(sys.db, 0, 2)
            && R.CallIdsNotReused(sys.db.events, 0) && R.DecisionsNameAskedCalls(sys.db.events, 0)
            && sys.bodies[(0, 2)].approvals == GRANTED
  {
    hide Reach, R.CallIdsNotReused, R.DecisionsNameAskedCalls;
    actions := ResumingRun();
    AskedOnce();
  }
  // ----- a LookupError in the resumed agent ---------------------------------------------

  function AtAgent(pc: Pc, asking: seq<string>): Body {
    BodyIn(0, pc, 1, ASKED, 1, 3, GRANTED, asking, false)
  }

  lemma ResumedActs()
    ensures Act(Second(4, DECIDED_LOG, Reader(0, 5)), StepBody(0, 2, Go)) == Second(5, RESUMED_LOG, AtAgent(Agent, []))
  {
    var sys := Second(4, DECIDED_LOG, Reader(0, 5));
    Writes(sys, 2, 4, RECLAIMED, StepResumed, NoPayload, AtAgent(Agent, []));
    assert sys.bodies[(0, 2) := AtAgent(Agent, [])] == Second(5, RESUMED_LOG, AtAgent(Agent, [])).bodies;
  }

  lemma ResumedRun() returns (actions: seq<Action>)
    ensures Reach(Initial(CFG), actions) == Second(5, RESUMED_LOG, AtAgent(Agent, []))
  {
    hide Act, Reach;
    actions := ResumingRun();
    ResumedActs();
    actions := Then(actions, Second(4, DECIDED_LOG, Reader(0, 5)), StepBody(0, 2, Go), Second(5, RESUMED_LOG, AtAgent(Agent, [])));
  }

  lemma ThrowActs()
    ensures Act(Second(5, RESUMED_LOG, AtAgent(Agent, [])), StepBody(0, 2, Lost(true)))
            == Second(5, RESUMED_LOG, AtAgent(Done(Raised), []))
  {
    var sys := Second(5, RESUMED_LOG, AtAgent(Agent, []));
    Moves(sys, 2, Lost(true), AtAgent(Done(Raised), []));
    assert sys.bodies[(0, 2) := AtAgent(Done(Raised), [])] == Second(5, RESUMED_LOG, AtAgent(Done(Raised), [])).bodies;
  }

  const FAULTED: Step := StepRow(Some(0), Faulted, 2, None, 1, false)

  function Stranded(): Sys {
    var sys := Second(5, RESUMED_LOG, AtAgent(Done(Raised), []));
    sys.(db := Tables(5, FAULTED, RESUMED_LOG, 0), workers := map[0 := Worker("default", Idle)])
  }

  lemma ReleaseActs()
    ensures Act(Second(5, RESUMED_LOG, AtAgent(Done(Raised), [])), Finish(0)) == Stranded()
  {
    assert Holds(Tables(5, RECLAIMED, RESUMED_LOG, 0), 0, 0, 2);
  }

  /** The handler's comment is false: a LookupError thrown by the resumed agent ends the body and the
      step with no step.failed and no run.failed on record, and leaves the run running for good. */
  lemma LookupErrorLeavesNoTrace() returns (actions: seq<Action>, i: nat)
    ensures i + 2 == |actions| && actions[i] == StepBody(0, 2, Lost(true)) && actions[i + 1] == Finish(0)
    ensures var sys := Reach(Initial(CFG), actions[..i]);
            Enabled(sys, actions[i]) && sys.bodies[(0, 2)].pc.Agent? && sys.bodies[(0, 2)].cycles > 0 && Fence(sys.db, 0, 2)
    ensures var sys := Reach(Initial(CFG), actions);
            && E.LetGo(sys, 0) && 0 in sys.db.runs && sys.db.runs[0].state == Running
            && forall k :: 0 <= k < |sys.db.events| ==> !sys.db.events[k].kind.StepFailed? && !sys.db.events[k].kind.RunFailed?
  {
    hide Act, Reach;
    actions := ResumedRun();
    i := |actions|;
    ThrowActs();
    ReleaseActs();
    var thrown := Then(actions, Second(5, RESUMED_LOG, AtAgent(Agent, [])), StepBody(0, 2, Lost(true)),
                       Second(5, RESUMED_LOG, AtAgent(Done(Raised), [])));
    var released := Then(thrown, Second(5, RESUMED_LOG, AtAgent(Done(Raised), [])), Finish(0), Stranded());
    assert released[..i] == actions;
    actions := released;
  }

  // ----- a call id asked at two suspensions ---------------------------------------------

  lemma AsksAgain()
    ensures Act(Second(5, RESUMED_LOG, AtAgent(Agent, [])), StepBody(0, 2, Ask(ASKED)))
            == Second(5, RESUMED_LOG, AtAgent(Suspending, ASKED))
  {
    var sys := Second(5, RESUMED_LOG, AtAgent(Agent, []));
    Moves(sys, 2, Ask(ASKED), AtAgent(Suspending, ASKED));
    assert sys.bodies[(0, 2) := AtAgent(Suspending, ASKED)] == Second(5, RESUMED_LOG, AtAgent(Suspending, ASKED)).bodies;
  }

  lemma SuspendsAgain()
    ensures Act(Second(5, RESUMED_LOG, AtAgent(Suspending, ASKED)), StepBody(0, 2, Go))
            == Second(6, REASKED_LOG, AtAgent(Holding, ASKED))
  {
    var sys := Second(5, RESUMED_LOG, AtAgent(Suspending, ASKED));
    Writes(sys, 2, 5, RECLAIMED, StepSuspended, PendingCalls(ASKED), AtAgent(Holding, ASKED));
    assert sys.bodies[(0, 2) := AtAgent(Holding, ASKED)] == Second(6, REASKED_LOG, AtAgent(Holding, ASKED)).bodies;
  }

  /** The third claim, by another worker after a crash and an expiry. */
  function Third(body: Body): Sys {
    Sys(Tables(6, StepRow(Some(1), Leased, 3, Some(121), 1, false), REASKED_LOG, 61),
        map[(0, 1) := FIRST, (0, 2) := AtAgent(Holding, ASKED), (0, 3) := body],
        map[0 := Worker("default", Dead), 1 := Worker("default", Executing(0, 3))], CFG)
  }

  lemma CrashesBeforeTheHold(before: seq<Action>) returns (actions: seq<Action>)
    requires Reach(Initial(CFG), before) == Second(6, REASKED_LOG, AtAgent(Holding, ASKED))
    ensures Reach(Initial(CFG), actions) == Third(BodyAt(1, ReadCycles))
  {
    hide Reach;
    var sys := Second(6, REASKED_LOG, AtAgent(Holding, ASKED));
    var dead := sys.(workers := map[0 := Worker("default", Dead)]);
    var later := dead.(db := dead.db.(now := 61));
    var joined := later.(workers := map[0 := Worker("default", Dead), 1 := Worker("default", Idle)]);
    assert Claimable(joined.db, 0, "default");
    actions := Then(before, sys, Crash(0), dead);
    actions := Then(actions, dead, Api(Tick(61)), later);
    actions := Then(actions, later, Join(1, "default"), joined);
    actions := Then(actions, joined, TakeClaim(1, 0), Third(BodyAt(1, ReadCycles)));
  }

  lemma ReaskedResumable()
    ensures Resumable(Third(BodyAt(1, ReadCycles)).db)
  {
    hide Suspensions, CommittedDecisions;
    SuspensionsOf();
    DecisionsOf();
  }

  lemma ReaskedRun() returns (actions: seq<Action>)
    ensures Reach(Initial(CFG), actions) == Third(Reader(1, 5))
  {
    hide Act, Reach, Reader, Resumable;
    actions := ResumedRun();
    AsksAgain();
    SuspendsAgain();
    actions := Then(actions, Second(5, RESUMED_LOG, AtAgent(Agent, [])), StepBody(0, 2, Ask(ASKED)),
                    Second(5, RESUMED_LOG, AtAgent(Suspending, ASKED)));
    actions := Then(actions, Second(5, RESUMED_LOG, AtAgent(Suspending, ASKED)), StepBody(0, 2, Go),
                    Second(6, REASKED_LOG, AtAgent(Holding, ASKED)));
    actions := CrashesBeforeTheHold(actions);
    ReaskedResumable();
    actions := Resumes(actions, Third(BodyAt(1, ReadCycles)), 1, 3, 5);
    assert Third(BodyAt(1, ReadCycles)).bodies[(0, 3) := Reader(1, 5)] == Third(Reader(1, 5)).bodies;
  }

  /** The assumption on call ids is needed: where an id is asked again and the worker dies between that
      step.suspended and the hold, a live resume goes on with a grant given for the earlier suspension,
      while nobody has answered the latest. */
  lemma ReusedCallId() returns (actions: seq<Action>)
    ensures var sys := Reach(Initial(CFG), actions);
            var log := Suspensions(sys.db.events, 0);
            && (0, 3) in sys.bodies && sys.bodies[(0, 3)].pc.Resuming? && Fence(sys.db, 0, 3)
            && R.DecisionsNameAskedCalls(sys.db.events, 0) && !R.CallIdsNotReused(sys.db.events, 0)
            && sys.bodies[(0, 3)].approvals == GRANTED && sys.bodies[(0, 3)].suspension == 3
            && log != [] && log[|log| - 1].seqNo == 6 && log[|log| - 1].payload == PendingCalls(ASKED)
            && !R.SomeAnswer(sys.db.events, 0, 6, "a")
  {
    hide Reach, R.CallIdsNotReused, R.DecisionsNameAskedCalls, R.SomeAnswer, Suspensions;
    actions := ReaskedRun();
    SuspensionsOf();
    AskedTwice();
  }

  lemma AskedTwice()
    ensures R.DecisionsNameAskedCalls(REASKED_LOG, 0) && !R.CallIdsNotReused(REASKED_LOG, 0)
    ensures !R.SomeAnswer(REASKED_LOG, 0, 6, "a")
  {
    hide Suspensions;
    SuspensionsOf();
    var log := Suspensions(REASKED_LOG, 0);
    assert R.Asked(log[0], "a") && R.Asked(log[1], "a");
  }
}
