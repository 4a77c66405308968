// A claim about the protocol that sounds right and is false, with the run that shows it:
// "nothing follows a terminal event". A claim looks only at the steps row, so a step whose worker
// died after committing run.completed and before releasing is claimed and started again.
module Counterexamples {
  import opened EventTypes
  import opened Schema
  import opened AppendPaths
  import opened Operations
  import D = DatabaseInvariants
  import opened Protocol

  const CFG: Config := Config(4, 60, 1000)

  lemma ReachSnoc(sys: Sys, actions: seq<Action>, a: Action)
    ensures Reach(sys, actions + [a]) == Act(Reach(sys, actions), a)
  {
    assert (actions + [a])[..|actions|] == actions;
  }

  function Row(owner: Option<WorkerId>, state: StepState, epoch: nat, lease: Option<int>): Step {
    Step(0, state, owner, epoch, lease, "default", 0, 0, false)
  }

  function BodyAt(worker: WorkerId, pc: Pc): Body {
    Body(worker, 0, false, pc, 0, false, [], 0, 0, map[], [], false)
  }

  function Written(epoch: nat, n: nat, kind: Kind, payload: Payload): Event {
    Event(0, n, kind, if kind.RunCompleted? then None else Some(0), None, payload, ByLease(0, epoch))
  }

  const REQUESTED: Event := Event(0, 1, RunRequested, None, None, NoPayload, ByApi)

  /** start_run, one worker joining, and its claim. */
  lemma Claimed() returns (actions: seq<Action>)
    ensures Reach(Initial(CFG), actions)
            == Sys(Db(map[0 := Run(Requested, 1)], map[0 := Row(Some(0), Leased, 1, Some(60))], [REQUESTED], 0),
                   map[(0, 1) := BodyAt(0, ReadCycles)], map[0 := Worker("default", Executing(0, 1))], CFG)
  {
    var seeded := Db(map[0 := Run(Requested, 1)], map[0 := Row(None, Runnable, 0, None)], [REQUESTED], 0);
    var start, join, claim := Api(Start(0, 0, "default", NoPayload)), Join(0, "default"), TakeClaim(0, 0);
    D.RequestedAdmitted();
    assert StartRun(EMPTY, 0, 0, "default", NoPayload).0 == seeded;
    assert Act(Initial(CFG), start) == Sys(seeded, map[], map[], CFG);
    assert Act(Act(Initial(CFG), start), join) == Sys(seeded, map[], map[0 := Worker("default", Idle)], CFG);
    ReachSnoc(Initial(CFG), [], start);
    ReachSnoc(Initial(CFG), [start], join);
    ReachSnoc(Initial(CFG), [start, join], claim);
    assert [] + [start] == [start] && [start] + [join] == [start, join];
    actions := [start, join] + [claim];
  }

  /** The body of the claim (0, epoch) moves from pc to next by one quiet step. */
  lemma QuietStep(sys: Sys, w: WorkerId, epoch: nat, pc: Pc, next: Pc)
    requires sys.db.steps == map[0 := Row(Some(w), Leased, epoch, Some(sys.db.now + 60))] && sys.cfg == CFG
    requires 0 in sys.db.runs && sys.db.runs[0].nextSeq < 100
    requires (0, epoch) in sys.bodies && sys.bodies[(0, epoch)] == BodyAt(w, pc)
    requires w in sys.workers && sys.workers[w].doing == Executing(0, epoch)
    requires (pc, next) in [(ReadCycles, LoadRole), (LoadRole, CompileRole), (CompileRole, Starting), (Preparing, Agent), (Agent, Completing)]
    ensures Act(sys, StepBody(0, epoch, Go)) == sys.(bodies := sys.bodies[(0, epoch) := BodyAt(w, next)])
  {
    assert sys.workers[w := sys.workers[w]] == sys.workers;
  }

  /** It commits step.started, step.completed or run.completed and moves on. */
  lemma WritingStep(sys: Sys, w: WorkerId, epoch: nat, pc: Pc, next: Pc, event: Event, state: RunState)
    requires sys.db.steps == map[0 := Row(Some(w), Leased, epoch, Some(sys.db.now + 60))] && sys.cfg == CFG
    requires sys.db.runs.Keys == {0}
    requires (0, epoch) in sys.bodies && sys.bodies[(0, epoch)] == BodyAt(w, pc)
    requires w in sys.workers && sys.workers[w].doing == Executing(0, epoch)
    requires var now := sys.db.runs[0].state;
             || (pc == Starting && next == Preparing && event == Written(epoch, sys.db.runs[0].nextSeq + 1, StepStarted, Ref("producer"))
                 && state == if now.Requested? then Running else now)
             || (pc == Completing && next == RunCompleting
                 && event == Written(epoch, sys.db.runs[0].nextSeq + 1, StepCompleted, Ref("output")) && state == now)
             || (pc == RunCompleting && next == Done(Succeeded) && now.Running?
                 && event == Written(epoch, sys.db.runs[0].nextSeq + 1, RunCompleted, NoPayload) && state == Completed)
    ensures Act(sys, StepBody(0, epoch, Go))
            == Sys(Db(map[0 := Run(state, sys.db.runs[0].nextSeq + 1)], sys.db.steps, sys.db.events + [event], sys.db.now),
                   sys.bodies[(0, epoch) := BodyAt(w, next)], sys.workers, CFG)
  {
    var after := Act(sys, StepBody(0, epoch, Go));
    assert Fence(sys.db, 0, epoch);
    assert after.db.runs.Keys == {0};
    assert after.db.runs == map[0 := after.db.runs[0]];
  }

  /** The body's first four steps: from the claim to a committed step.started. */
  lemma Started(before: seq<Action>, sys: Sys, w: WorkerId, epoch: nat) returns (actions: seq<Action>)
    requires Reach(Initial(CFG), before) == sys && sys.cfg == CFG
    requires sys.db.steps == map[0 := Row(Some(w), Leased, epoch, Some(sys.db.now + 60))]
    requires sys.db.runs.Keys == {0} && sys.db.runs[0].nextSeq < 100
    requires (0, epoch) in sys.bodies && sys.bodies[(0, epoch)] == BodyAt(w, ReadCycles)
    requires w in sys.workers && sys.workers[w].doing == Executing(0, epoch)
    ensures var n := sys.db.runs[0].nextSeq + 1;
            Reach(Initial(CFG), actions)
            == Sys(Db(map[0 := Run(if sys.db.runs[0].state.Requested? then Running else sys.db.runs[0].state, n)],
                      sys.db.steps, sys.db.events + [Written(epoch, n, StepStarted, Ref("producer"))], sys.db.now),
                   sys.bodies[(0, epoch) := BodyAt(w, Preparing)], sys.workers, CFG)
  {
    hide Act, Reach;
    var go := StepBody(0, epoch, Go);
    actions := before + [go] + [go] + [go] + [go];
    ReachSnoc(Initial(CFG), before, go);
    ReachSnoc(Initial(CFG), before + [go], go);
    ReachSnoc(Initial(CFG), before + [go] + [go], go);
    ReachSnoc(Initial(CFG), before + [go] + [go] + [go], go);
    var ready := sys.(bodies := sys.bodies[(0, epoch) := BodyAt(w, LoadRole)]);
    var loaded := ready.(bodies := ready.bodies[(0, epoch) := BodyAt(w, CompileRole)]);
    var starting := loaded.(bodies := loaded.bodies[(0, epoch) := BodyAt(w, Starting)]);
    QuietStep(sys, w, epoch, ReadCycles, LoadRole);
    QuietStep(ready, w, epoch, LoadRole, CompileRole);
    QuietStep(loaded, w, epoch, CompileRole, Starting);
    WritingStep(starting, w, epoch, Starting, Preparing,
                Written(epoch, sys.db.runs[0].nextSeq + 1, StepStarted, Ref("producer")),
                if sys.db.runs[0].state.Requested? then Running else sys.db.runs[0].state);
    assert starting.bodies[(0, epoch) := BodyAt(w, Preparing)] == sys.bodies[(0, epoch) := BodyAt(w, Preparing)];
  }

  /** The agent answers and the body commits step.completed and run.completed. */
  lemma Finished(before: seq<Action>, sys: Sys) returns (actions: seq<Action>)
    requires Reach(Initial(CFG), before) == sys && sys.cfg == CFG
    requires sys.db.steps == map[0 := Row(Some(0), Leased, 1, Some(60))] && sys.db.now == 0
    requires sys.db.runs == map[0 := Run(Running, 2)]
    requires sys.bodies == map[(0, 1) := BodyAt(0, Preparing)]
    requires sys.workers == map[0 := Worker("default", Executing(0, 1))]
    ensures Reach(Initial(CFG), actions)
            == Sys(Db(map[0 := Run(Completed, 4)], sys.db.steps,
                      sys.db.events + [Written(1, 3, StepCompleted, Ref("output")), Written(1, 4, RunCompleted, NoPayload)], 0),
                   map[(0, 1) := BodyAt(0, Done(Succeeded))], sys.workers, CFG)
  {
    hide Act, Reach, Written;
    var go := StepBody(0, 1, Go);
    var answered := sys.(bodies := map[(0, 1) := BodyAt(0, Agent)]);
    var completing := sys.(bodies := map[(0, 1) := BodyAt(0, Completing)]);
    assert Act(sys, go) == answered by {
      QuietStep(sys, 0, 1, Preparing, Agent);
    }
    assert Act(answered, go) == completing by {
      QuietStep(answered, 0, 1, Agent, Completing);
    }
    actions := before + [go] + [go];
    ReachSnoc(Initial(CFG), before, go);
    ReachSnoc(Initial(CFG), before + [go], go);
    actions := Ended(actions, completing);
  }

  lemma Ended(before: seq<Action>, sys: Sys) returns (actions: seq<Action>)
    requires Reach(Initial(CFG), before) == sys && sys.cfg == CFG
    requires sys.db.steps == map[0 := Row(Some(0), Leased, 1, Some(60))] && sys.db.now == 0
    requires sys.db.runs == map[0 := Run(Running, 2)]
    requires sys.bodies == map[(0, 1) := BodyAt(0, Completing)]
    requires sys.workers == map[0 := Worker("default", Executing(0, 1))]
    ensures Reach(Initial(CFG), actions)
            == Sys(Db(map[0 := Run(Completed, 4)], sys.db.steps,
                      sys.db.events + [Written(1, 3, StepCompleted, Ref("output")), Written(1, 4, RunCompleted, NoPayload)], 0),
                   map[(0, 1) := BodyAt(0, Done(Succeeded))], sys.workers, CFG)
  {
    hide Act, Reach, Written;
    var go := StepBody(0, 1, Go);
    var third, fourth := Written(1, 3, StepCompleted, Ref("output")), Written(1, 4, RunCompleted, NoPayload);
    actions := before + [go] + [go];
    ReachSnoc(Initial(CFG), before, go);
    ReachSnoc(Initial(CFG), before + [go], go);
    WritingStep(sys, 0, 1, Completing, RunCompleting, third, Running);
    var ended := Act(sys, go);
    WritingStep(ended, 0, 1, RunCompleting, Done(Succeeded), fourth, Completed);
    assert sys.db.events + [third] + [fourth] == sys.db.events + [third, fourth];
  }

  /** The worker dies before releasing, the lease runs out, and a second worker claims the step. */
  lemma Reclaimed(before: seq<Action>, sys: Sys) returns (actions: seq<Action>)
    requires Reach(Initial(CFG), before) == sys && sys.cfg == CFG
    requires sys.db.steps == map[0 := Row(Some(0), Leased, 1, Some(60))] && sys.db.now == 0
    requires sys.bodies == map[(0, 1) := BodyAt(0, Done(Succeeded))]
    requires sys.workers == map[0 := Worker("default", Executing(0, 1))]
    ensures Reach(Initial(CFG), actions)
            == Sys(sys.db.(steps := map[0 := Row(Some(1), Leased, 2, Some(121))], now := 61),
                   map[(0, 1) := BodyAt(0, Done(Succeeded)), (0, 2) := BodyAt(1, ReadCycles)],
                   map[0 := Worker("default", Dead), 1 := Worker("default", Executing(0, 2))], CFG)
  {
    hide Reach;
    var crash, tick, join, claim := Crash(0), Api(Tick(61)), Join(1, "default"), TakeClaim(1, 0);
    actions := before + [crash] + [tick] + [join] + [claim];
    ReachSnoc(Initial(CFG), before, crash);
    ReachSnoc(Initial(CFG), before + [crash], tick);
    ReachSnoc(Initial(CFG), before + [crash] + [tick], join);
    ReachSnoc(Initial(CFG), before + [crash] + [tick] + [join], claim);
    var dead := sys.(workers := map[0 := Worker("default", Dead)]);
    assert Act(sys, crash) == dead;
    var later := dead.(db := dead.db.(now := 61));
    assert Act(dead, tick) == later;
    var joined := later.(workers := map[0 := Worker("default", Dead), 1 := Worker("default", Idle)]);
    assert Act(later, join) == joined;
    assert Claimable(joined.db, 0, "default");
  }

  /** A reachable log in which step.started is committed after the run's run.completed, under a
      later epoch of the same step. */
  lemma StartedAfterCompleted() returns (actions: seq<Action>, i: nat, j: nat)
    ensures var events := Reach(Initial(CFG), actions).db.events;
            && i < j < |events| && events[i].run == events[j].run
            && events[i].kind == RunCompleted && events[j].kind == StepStarted
            && events[i].writer == ByLease(0, 1) && events[j].writer == ByLease(0, 2)
  {
    hide Act, Reach;
    actions := Claimed();
    var sys := Reach(Initial(CFG), actions);
    actions := Started(actions, sys, 0, 1);
    sys := Reach(Initial(CFG), actions);
    actions := Finished(actions, sys);
    sys := Reach(Initial(CFG), actions);
    actions := Reclaimed(actions, sys);
    sys := Reach(Initial(CFG), actions);
    actions := Started(actions, sys, 1, 2);
    i, j := 3, 4;
  }
}
