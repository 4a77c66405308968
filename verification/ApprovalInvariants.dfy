// The approval loop in every reachable state: holds, cycles and decisions.
module ApprovalInvariants {
  import opened EventTypes
  import opened Schema
  import opened AppendPaths
  import opened Operations
  import D = DatabaseInvariants
  import opened Effects
  import opened Logs
  import opened Protocol
  import opened ClaimInvariants

  // ----- the invariants -----------------------------------------------------------------

  /** The claim still has the step's current epoch: no later claim has been made. */
  predicate Live(sys: Sys, s: StepId, e: nat) {
    s in sys.db.steps && sys.db.steps[s].epoch == e && (s, e) in sys.bodies
  }

  /** Program counters the executor reaches only below the cycle cap. */
  predicate BelowCap(pc: Pc) {
    !pc.ReadCycles? && !pc.CapEvent? && !pc.CapTerminal? && !pc.Done?
  }

  ghost predicate CyclesTracked(sys: Sys, s: StepId, e: nat)
    requires (s, e) in sys.bodies && s in sys.db.steps
  {
    var b := sys.bodies[(s, e)];
    var row := sys.db.steps[s];
    && (!b.analysis && BelowCap(b.pc) ==> b.cycles < sys.cfg.cap)
    && (b.held ==> b.cycles < sys.cfg.cap)
    && (row.epoch == e && !b.analysis && !b.held && !b.pc.ReadCycles? && !b.pc.Done? ==> row.cycles == b.cycles)
    && (row.epoch == e && b.held ==> row.cycles == b.cycles + (if row.awaiting then 0 else 1))
  }

  ghost predicate CyclesFollowBodies(sys: Sys) {
    forall s, e :: (s, e) in sys.bodies && s in sys.db.steps ==> CyclesTracked(sys, s, e)
  }

  /** A hold is on only because the current claim's own hold update matched; the counter stays
      within the cap. */
  ghost predicate HoldsAreHeld(sys: Sys) {
    forall s :: s in sys.db.steps ==>
      && sys.db.steps[s].cycles <= sys.cfg.cap
      && (sys.db.steps[s].awaiting ==>
            (s, sys.db.steps[s].epoch) in sys.bodies && sys.bodies[(s, sys.db.steps[s].epoch)].held)
  }

  /** The step's latest suspension was written under this epoch and no decision answers it. */
  ghost predicate OpenSuspension(events: seq<Event>, s: StepId, e: nat) {
    var log := Suspensions(events, s);
    && log != []
    && log[|log| - 1].writer == ByLease(s, e)
    && Undecided(events, s, log[|log| - 1].seqNo)
  }

  ghost predicate SuspensionsOpen(sys: Sys) {
    && (forall s :: s in sys.db.steps && sys.db.steps[s].awaiting ==>
          OpenSuspension(sys.db.events, s, sys.db.steps[s].epoch))
    && (forall s, e :: Live(sys, s, e) && sys.bodies[(s, e)].pc.Holding? ==> OpenSuspension(sys.db.events, s, e))
  }

  ghost predicate NamesSuspension(events: seq<Event>, d: Event) {
    d.writer.ByDecision? && d.step.Some? ==>
      exists i :: 0 <= i < |events| && IsSuspension(events[i], d.step.value) && events[i].seqNo == d.writer.suspension
                  && events[i].run == d.run
  }

  /** Every decision row answers a committed suspension of its own step. */
  ghost predicate DecisionsNameSuspensions(events: seq<Event>) {
    forall i :: 0 <= i < |events| ==> NamesSuspension(events, events[i])
  }

  /** Two decision rows of a step answer the same suspension exactly when one call wrote both. */
  ghost predicate OneCallPerSuspension(events: seq<Event>) {
    forall i, j :: 0 <= i < |events| && 0 <= j < |events|
      && events[i].writer.ByDecision? && events[j].writer.ByDecision? && events[i].step == events[j].step
      ==> (events[i].writer.suspension == events[j].writer.suspension <==> events[i].writer.cycle == events[j].writer.cycle)
  }

  /** approval_cycles counts the suspensions that have been decided. */
  ghost predicate CyclesCountDecided(db: Db) {
    forall s :: s in db.steps ==> |DecidedSeqs(db.events, s)| == db.steps[s].cycles
  }

  ghost predicate ApprovalInv(sys: Sys) {
    && CyclesFollowBodies(sys) && HoldsAreHeld(sys) && SuspensionsOpen(sys)
    && DecisionsNameSuspensions(sys.db.events) && OneCallPerSuspension(sys.db.events) && CyclesCountDecided(sys.db)
    && StepsKnown(sys.db)
  }

  /** No row names a step that does not exist. */
  ghost predicate StepsKnown(db: Db) {
    forall i :: 0 <= i < |db.events| && db.events[i].step.Some? ==> db.events[i].step.value in db.steps
  }

  // ----- cycles and holds ---------------------------------------------------------------

  /** The counter of a step under a live, unheld claim does not move, and its hold is off. */
  lemma QuietWhileClaimed(sys: Sys, a: Action, s: StepId, e: nat)
    requires HoldsAreHeld(sys) && Enabled(sys, a) && Live(sys, s, e) && !sys.bodies[(s, e)].held
    ensures !sys.db.steps[s].awaiting
    ensures s in Act(sys, a).db.steps && Act(sys, a).db.steps[s].cycles == sys.db.steps[s].cycles
  {
    hide Apply;
    RowEffect(sys.db, OpOf(sys, a), s);
  }

  lemma NextBodyCycles(db: Db, cfg: Config, s: StepId, e: nat, b: Body, choice: Choice)
    requires s in db.steps && !b.pc.Done? && !b.held && !b.analysis
    requires BelowCap(b.pc) ==> b.cycles < cfg.cap
    requires !AnalysisPc(b.pc)
    ensures var b' := NextBody(db, cfg, s, b, choice, Apply(db, BodyOp(s, e, b, choice)).1);
            && (BelowCap(b'.pc) ==> b'.cycles < cfg.cap)
            && (b'.held ==> b.pc.Holding? && b'.cycles < cfg.cap && b'.cycles == b.cycles)
            && (!b'.pc.Done? && !b'.pc.ReadCycles? ==> b'.cycles == if b.pc.ReadCycles? then db.steps[s].cycles else b.cycles)
  {
    hide Apply, LatestPending, NthSuspension, CommittedDecisions, Approvals;
  }

  lemma HeldMeansMatched(b: Body, choice: Choice, reply: Reply)
    requires WorkPc(b.pc) && !b.held && ProceedWork(b, choice, reply).held
    ensures b.pc.Holding? && reply == Rows(1)
  {
  }

  lemma HoldMatched(db: Db, w: WorkerId, s: StepId, e: nat)
    requires s in db.steps && Apply(db, HoldStep(w, s, e)).1 == Rows(1)
    ensures var after := Apply(db, HoldStep(w, s, e)).0;
            s in after.steps && after.steps[s].awaiting && after.steps[s].cycles == db.steps[s].cycles
  {
  }

  lemma HoldingOp(s: StepId, e: nat, b: Body, choice: Choice)
    requires b.pc.Holding? && !choice.Lost?
    ensures BodyOp(s, e, b, choice) == HoldStep(b.worker, s, e)
  {
  }

  /** A body's hold update that matched turns the hold on, and one that did not leaves the row. */
  lemma HoldTurnsOn(db: Db, cfg: Config, s: StepId, e: nat, b: Body, choice: Choice)
    requires s in db.steps && !b.held
    ensures var (after, reply) := Apply(db, BodyOp(s, e, b, choice));
            NextBody(db, cfg, s, b, choice, reply).held ==>
              s in after.steps && after.steps[s].awaiting && after.steps[s].cycles == db.steps[s].cycles
  {
    hide Apply, BodyOp, OnException, ProceedStart, ProceedResume, ProceedWork, ProceedAnalysis;
    var reply := Apply(db, BodyOp(s, e, b, choice)).1;
    if NextBody(db, cfg, s, b, choice, reply).held {
      HeldMeansMatched(b, choice, reply);
      HoldingOp(s, e, b, choice);
      HoldMatched(db, b.worker, s, e);
    }
  }

  lemma OwnStepTracked(sys: Sys, s: StepId, e: nat, choice: Choice)
    requires ClaimsAreEpochs(sys) && BodiesMatch(sys) && CyclesFollowBodies(sys) && HoldsAreHeld(sys)
    requires Enabled(sys, StepBody(s, e, choice))
    ensures var sys' := Act(sys, StepBody(s, e, choice)); s in sys'.db.steps && CyclesTracked(sys', s, e)
  {
    hide Apply, NextBody, BodyOp;
    var b := sys.bodies[(s, e)];
    var op := BodyOp(s, e, b, choice);
    BodyMatched(sys, s, e);
    assert CyclesTracked(sys, s, e);
    RowEffect(sys.db, op, s);
    BodyOpIsOwn(s, e, b, choice);
    NextBodyMatches(sys.db, sys.cfg, s, e, b, choice);
    if !b.analysis {
      NextBodyCycles(sys.db, sys.cfg, s, e, b, choice);
      HoldTurnsOn(sys.db, sys.cfg, s, e, b, choice);
      if sys.db.steps[s].epoch == e {
        QuietWhileClaimed(sys, StepBody(s, e, choice), s, e);
      }
    }
  }

  /** A body's transactions are fenced transactions of its own claim, its own hold, or its own
      termination of the step. */
  lemma BodyOpIsOwn(s: StepId, e: nat, b: Body, choice: Choice)
    ensures var op := BodyOp(s, e, b, choice);
            && (FencedOp(op) ==> op.step == s && op.epoch == e && op.run == b.run)
            && (op.HoldStep? ==> op == HoldStep(b.worker, s, e) && b.pc.Holding?)
            && (op.Terminate? ==> op.step == s && op.epoch == e && b.pc.Terminating?)
            && (FencedOp(op) || op.HoldStep? || op.Terminate? || op.Nothing?)
  {
  }

  lemma CyclesKept(sys: Sys, a: Action)
    requires ClaimsAreEpochs(sys) && BodiesMatch(sys) && CyclesFollowBodies(sys) && HoldsAreHeld(sys) && Enabled(sys, a)
    ensures CyclesFollowBodies(Act(sys, a))
  {
    hide Apply, NextBody, BodyOp, BodyMatchesStep;
    var op := OpOf(sys, a);
    var sys' := Act(sys, a);
    forall s, e | (s, e) in sys'.bodies && s in sys'.db.steps ensures CyclesTracked(sys', s, e) {
      if a.StepBody? && a.step == s && a.epoch == e {
        OwnStepTracked(sys, s, e, a.choice);
      } else if (s, e) in sys.bodies {
        assert s in sys.db.steps;
        OtherBodyTracked(sys, a, s, e);
      } else {
        FreshBodyTracked(sys, a, s, e);
      }
    }
  }

  lemma OtherBodyTracked(sys: Sys, a: Action, s: StepId, e: nat)
    requires ClaimsAreEpochs(sys) && CyclesFollowBodies(sys) && HoldsAreHeld(sys) && Enabled(sys, a)
    requires (s, e) in sys.bodies && s in sys.db.steps && !(a.StepBody? && a.step == s && a.epoch == e)
    ensures var sys' := Act(sys, a); (s, e) in sys'.bodies && s in sys'.db.steps && CyclesTracked(sys', s, e)
  {
    hide Apply, NextBody, BodyOp;
    assert CyclesTracked(sys, s, e);
    var op := OpOf(sys, a);
    RowEffect(sys.db, op, s);
    assert sys.bodies[(s, e)] == Act(sys, a).bodies[(s, e)] by {
      assert a.TakeClaim? ==> (a.step, sys.db.steps[a.step].epoch + 1) !in sys.bodies;
    }
    var row, row' := sys.db.steps[s], Act(sys, a).db.steps[s];
    if a.StepBody? {
      BodyOpIsOwn(a.step, a.epoch, sys.bodies[(a.step, a.epoch)], a.choice);
    }
    if row'.epoch == e {
      assert row.epoch == e;
      assert row'.awaiting ==> row.awaiting;
      assert row.awaiting ==> sys.bodies[(s, e)].held;
    }
  }

  lemma FreshBodyTracked(sys: Sys, a: Action, s: StepId, e: nat)
    requires Enabled(sys, a) && (s, e) !in sys.bodies
    requires (s, e) in Act(sys, a).bodies && s in Act(sys, a).db.steps
    ensures CyclesTracked(Act(sys, a), s, e)
  {
    hide Apply;
    assert a.TakeClaim? && a.step == s;
  }

  lemma HoldsKept(sys: Sys, a: Action)
    requires ClaimsAreEpochs(sys) && BodiesMatch(sys) && CyclesFollowBodies(sys) && HoldsAreHeld(sys) && Enabled(sys, a)
    ensures HoldsAreHeld(Act(sys, a))
  {
    hide Apply, NextBody, BodyOp, BodyMatchesStep, CyclesTracked;
    var sys' := Act(sys, a);
    forall s | s in sys'.db.steps
      ensures sys'.db.steps[s].cycles <= sys'.cfg.cap
      ensures sys'.db.steps[s].awaiting ==>
                (s, sys'.db.steps[s].epoch) in sys'.bodies && sys'.bodies[(s, sys'.db.steps[s].epoch)].held
    {
      if s in sys.db.steps {
        HoldKept(sys, a, s);
      } else {
        StepsAfter(sys.db, OpOf(sys, a), s);
      }
    }
  }

  lemma HoldKept(sys: Sys, a: Action, s: StepId)
    requires ClaimsAreEpochs(sys) && BodiesMatch(sys) && CyclesFollowBodies(sys) && HoldsAreHeld(sys) && Enabled(sys, a)
    requires s in sys.db.steps
    ensures var sys' := Act(sys, a);
            && s in sys'.db.steps && sys'.db.steps[s].cycles <= sys'.cfg.cap
            && (sys'.db.steps[s].awaiting ==>
                  (s, sys'.db.steps[s].epoch) in sys'.bodies && sys'.bodies[(s, sys'.db.steps[s].epoch)].held)
  {
    hide Apply, NextBody, BodyOp;
    var e := sys.db.steps[s].epoch;
    RowEffect(sys.db, OpOf(sys, a), s);
    if a.StepBody? {
      BodyOpIsOwn(a.step, a.epoch, sys.bodies[(a.step, a.epoch)], a.choice);
    }
    if sys.db.steps[s].awaiting {
      assert CyclesTracked(sys, s, e);
      BodyMatched(sys, s, e);
    } else if a.StepBody? && a.step == s && a.epoch == e {
      HoldReplySetsHeld(sys.db, sys.cfg, s, e, sys.bodies[(s, e)], a.choice);
    }
  }

  lemma HoldReplySetsHeld(db: Db, cfg: Config, s: StepId, e: nat, b: Body, choice: Choice)
    requires s in db.steps
    ensures var (_, reply) := Apply(db, BodyOp(s, e, b, choice));
            BodyOp(s, e, b, choice).HoldStep? && reply == Rows(1) ==> NextBody(db, cfg, s, b, choice, reply).held
  {
    hide Apply;
  }

  // ----- suspensions and decisions ------------------------------------------------------

  lemma OpenStays(events: seq<Event>, rows: seq<Event>, s: StepId, e: nat)
    requires OpenSuspension(events, s, e) && forall i :: 0 <= i < |rows| ==> rows[i].step != Some(s)
    ensures OpenSuspension(events + rows, s, e)
  {
    ForeignRowsChangeNothing(events, rows, s);
  }

  /** A number no row of the run carries yet is undecided. */
  lemma FreshSeqUndecided(db: Db, s: StepId, n: nat)
    requires D.Dense(db) && D.Referential(db) && D.Attributed(db) && DecisionsNameSuspensions(db.events)
    requires s in db.steps && db.steps[s].run in db.runs && n > db.runs[db.steps[s].run].nextSeq
    ensures Undecided(db.events, s, n)
  {
    forall i | 0 <= i < |db.events| ensures !DecisionOn(db.events[i], s, n) {
      if DecisionOn(db.events[i], s, n) {
        assert D.AttributedRow(db, db.events[i]);
        assert NamesSuspension(db.events, db.events[i]);
        var j :| 0 <= j < |db.events| && IsSuspension(db.events[j], s) && db.events[j].seqNo == n
                 && db.events[j].run == db.events[i].run;
        SeqInRange(db, j);
      }
    }
  }

  /** Committing step.suspended opens a suspension of the claim's own. */
  lemma SuspendingOpens(db: Db, op: DbOp, rows: seq<Event>)
    requires D.Dense(db) && D.Referential(db) && D.Attributed(db) && DecisionsNameSuspensions(db.events)
    requires op.AppendStep? && op.kind.StepSuspended? && OpAdds(db, op, rows) && rows != []
    ensures OpenSuspension(db.events + rows, op.step, op.epoch)
  {
    var row := rows[0];
    SuspensionsSnoc(db.events, row, op.step);
    FreshSeqUndecided(db, op.step, row.seqNo);
  }

  lemma HoldingFollowsSuspending(db: Db, cfg: Config, s: StepId, b: Body, choice: Choice, reply: Reply)
    requires s in db.steps && !b.pc.Done?
    ensures NextBody(db, cfg, s, b, choice, reply).pc.Holding? ==>
              b.pc.Suspending? && !choice.Lost? && reply.Committed?
  {
    hide LatestPending, NthSuspension, CommittedDecisions, Approvals, HasFailed;
    hide OnException, ProceedStart, ProceedResume, ProceedWork, ProceedAnalysis;
  }

  lemma SuspendingOp(s: StepId, e: nat, b: Body, choice: Choice)
    ensures var op := BodyOp(s, e, b, choice);
            && (b.pc.Suspending? && !choice.Lost? ==>
                  op.AppendStep? && op.kind.StepSuspended? && op.step == s && op.epoch == e)
            && (b.pc.Holding? ==> op.Nothing? || op.HoldStep?)
  {
  }

  /** No other transaction adds a row of a step while a claim of it is live and unheld, unless it
      is that claim's own. */
  lemma OnlyOwnRows(sys: Sys, a: Action, s: StepId, e: nat, rows: seq<Event>)
    requires HoldsAreHeld(sys) && Enabled(sys, a) && Live(sys, s, e) && !sys.bodies[(s, e)].held
    requires OpAdds(sys.db, OpOf(sys, a), rows) && !(a.StepBody? && a.step == s && a.epoch == e)
    ensures forall i :: 0 <= i < |rows| ==> rows[i].step != Some(s)
  {
    hide Apply, NextBody;
    if a.StepBody? {
      BodyOpIsOwn(a.step, a.epoch, sys.bodies[(a.step, a.epoch)], a.choice);
    }
  }

  lemma OpenForHolding(sys: Sys, a: Action, s: StepId, e: nat, rows: seq<Event>)
    requires ClaimInv(sys) && HoldsAreHeld(sys) && SuspensionsOpen(sys) && DecisionsNameSuspensions(sys.db.events)
    requires Enabled(sys, a) && Live(Act(sys, a), s, e) && Act(sys, a).bodies[(s, e)].pc.Holding?
    requires Act(sys, a).db.events == sys.db.events + rows && OpAdds(sys.db, OpOf(sys, a), rows)
    requires FencedOp(OpOf(sys, a)) && Apply(sys.db, OpOf(sys, a)).1.Committed? ==> rows != []
    ensures OpenSuspension(sys.db.events + rows, s, e)
  {
    hide Apply, NextBody, BodyOp, OpAdds, OpenSuspension;
    if a.StepBody? && a.step == s && a.epoch == e {
      HoldingFollowsSuspending(sys.db, sys.cfg, s, sys.bodies[(s, e)], a.choice, Apply(sys.db, OpOf(sys, a)).1);
      SuspendingOp(s, e, sys.bodies[(s, e)], a.choice);
      SuspendingOpens(sys.db, OpOf(sys, a), rows);
    } else {
      WasLive(sys, a, s, e);
      BodyMatched(sys, s, e);
      OnlyOwnRows(sys, a, s, e, rows);
      OpenStays(sys.db.events, rows, s, e);
    }
  }

  /** A claim live after another body's action was live before it, with the same body. */
  lemma WasLive(sys: Sys, a: Action, s: StepId, e: nat)
    requires ClaimsAreEpochs(sys) && Enabled(sys, a) && Live(Act(sys, a), s, e)
    requires !(a.StepBody? && a.step == s && a.epoch == e)
    requires !Act(sys, a).bodies[(s, e)].pc.ReadCycles? && !Act(sys, a).bodies[(s, e)].pc.ReadFailed?
    ensures Live(sys, s, e) && Act(sys, a).bodies[(s, e)] == sys.bodies[(s, e)]
  {
    hide Apply, NextBody, BodyOp;
    if a.StepBody? {
      BodyOpIsOwn(a.step, a.epoch, sys.bodies[(a.step, a.epoch)], a.choice);
    }
    assert (s, e) in sys.bodies;
    RowEffect(sys.db, OpOf(sys, a), s);
    assert a.TakeClaim? ==> (a.step, sys.db.steps[a.step].epoch + 1) !in sys.bodies;
  }

  lemma OpenForAwaiting(sys: Sys, a: Action, s: StepId, rows: seq<Event>)
    requires D.StepShape(sys.db) && SuspensionsOpen(sys) && ClaimsAreEpochs(sys) && Enabled(sys, a)
    requires s in Act(sys, a).db.steps && Act(sys, a).db.steps[s].awaiting
    requires OpAdds(sys.db, OpOf(sys, a), rows)
    requires OpOf(sys, a).AppendDecision? && rows != [] ==> Apply(sys.db, OpOf(sys, a)).1.Committed?
    ensures OpenSuspension(sys.db.events + rows, s, Act(sys, a).db.steps[s].epoch)
  {
    hide Apply, NextBody, BodyOp, OpenSuspension, DecisionRowFor, LeaseRow;
    var op := OpOf(sys, a);
    if s !in sys.db.steps {
      StepsAfter(sys.db, op, s);
      assert false;
    }
    RowEffect(sys.db, op, s);
    if a.StepBody? {
      BodyOpIsOwn(a.step, a.epoch, sys.bodies[(a.step, a.epoch)], a.choice);
    }
    assert D.RowShape(sys.db.steps[s]);
    AwaitedRowsForeign(sys.db, op, s, rows);
    OpenStays(sys.db.events, rows, s, sys.db.steps[s].epoch);
  }

  /** The rows added while a step awaits, or turns to awaiting, are not its own. */
  lemma AwaitedRowsForeign(db: Db, op: DbOp, s: StepId, rows: seq<Event>)
    requires OpAdds(db, op, rows) && s in db.steps && D.RowShape(db.steps[s])
    requires (op.AppendDecision? && op.step == s ==> rows == []) && (db.steps[s].awaiting || op.HoldStep?)
    ensures forall i :: 0 <= i < |rows| ==> rows[i].step != Some(s)
  {
  }

  lemma SuspensionsOpenKept(sys: Sys, a: Action, rows: seq<Event>)
    requires ClaimInv(sys) && HoldsAreHeld(sys) && SuspensionsOpen(sys) && DecisionsNameSuspensions(sys.db.events)
    requires Enabled(sys, a)
    requires Act(sys, a).db.events == sys.db.events + rows && OpAdds(sys.db, OpOf(sys, a), rows)
    requires FencedOp(OpOf(sys, a)) && Apply(sys.db, OpOf(sys, a)).1.Committed? ==> rows != []
    requires OpOf(sys, a).AppendDecision? && rows != [] ==> Apply(sys.db, OpOf(sys, a)).1.Committed?
    ensures SuspensionsOpen(Act(sys, a))
  {
    hide Apply, NextBody, BodyOp, OpAdds, OpenSuspension;
    var sys' := Act(sys, a);
    forall s | s in sys'.db.steps && sys'.db.steps[s].awaiting
      ensures OpenSuspension(sys'.db.events, s, sys'.db.steps[s].epoch)
    {
      OpenForAwaiting(sys, a, s, rows);
    }
    forall s, e | Live(sys', s, e) && sys'.bodies[(s, e)].pc.Holding? ensures OpenSuspension(sys'.db.events, s, e) {
      OpenForHolding(sys, a, s, e, rows);
    }
  }

  lemma NamingKept(events: seq<Event>, rows: seq<Event>)
    requires DecisionsNameSuspensions(events)
    requires forall i :: 0 <= i < |rows| ==> NamesSuspension(events, rows[i])
    ensures DecisionsNameSuspensions(events + rows)
  {
    forall k | 0 <= k < |events + rows| ensures NamesSuspension(events + rows, (events + rows)[k]) {
      var d := (events + rows)[k];
      assert NamesSuspension(events, d);
      if d.writer.ByDecision? && d.step.Some? {
        var i :| 0 <= i < |events| && IsSuspension(events[i], d.step.value)
                 && events[i].seqNo == d.writer.suspension && events[i].run == d.run;
        assert (events + rows)[i] == events[i];
      }
    }
  }

  lemma DecisionCallNames(db: Db, op: DbOp, rows: seq<Event>)
    requires D.Dense(db) && D.Referential(db) && D.Attributed(db) && OpAdds(db, op, rows)
    ensures forall i :: 0 <= i < |rows| ==> NamesSuspension(db.events, rows[i])
  {
    if op.AppendDecision? && rows != [] {
      var log := Suspensions(db.events, op.step);
      StepSuspensionsAscend(db, op.step);
      var last := log[|log| - 1];
      assert last in log && last in db.events && IsSuspension(last, op.step);
      var i :| 0 <= i < |db.events| && db.events[i] == last;
      assert D.AttributedRow(db, db.events[i]);
    }
  }

  /** A decision call answers a suspension no row answered, under a cycle no row carries. */
  lemma DecisionCallIsNew(db: Db, op: DbOp, rows: seq<Event>, e: nat)
    requires D.Dense(db) && D.Referential(db) && D.Attributed(db)
    requires op.AppendDecision? && OpAdds(db, op, rows) && rows != [] && OpenSuspension(db.events, op.step, e)
    ensures Undecided(db.events, op.step, op.suspension)
    ensures forall i :: 0 <= i < |db.events| && db.events[i].step == Some(op.step) && db.events[i].writer.ByDecision?
              ==> db.events[i].writer.cycle < db.steps[op.step].cycles
  {
    StepSuspensionsAscend(db, op.step);
    forall i | 0 <= i < |db.events| && db.events[i].step == Some(op.step) && db.events[i].writer.ByDecision?
      ensures db.events[i].writer.cycle < db.steps[op.step].cycles
    {
      assert D.AttributedRow(db, db.events[i]);
    }
  }

  lemma OneCallKept(db: Db, op: DbOp, rows: seq<Event>, e: nat)
    requires D.Dense(db) && D.Referential(db) && D.Attributed(db) && OneCallPerSuspension(db.events)
    requires OpAdds(db, op, rows)
    requires op.AppendDecision? && rows != [] ==> OpenSuspension(db.events, op.step, e)
    ensures OneCallPerSuspension(db.events + rows)
  {
    hide D.Dense, D.Referential, D.Attributed, OpenSuspension;
    if op.AppendDecision? && rows != [] {
      DecisionCallIsNew(db, op, rows, e);
      assert forall i :: 0 <= i < |db.events| ==> !DecisionOn(db.events[i], op.step, op.suspension);
    } else {
      assert forall i :: 0 <= i < |rows| ==> !rows[i].writer.ByDecision?;
    }
  }

  lemma CountKept(db: Db, op: DbOp, rows: seq<Event>, e: nat)
    requires D.Dense(db) && D.Referential(db) && D.Attributed(db) && CyclesCountDecided(db) && StepsKnown(db)
    requires OpAdds(db, op, rows) && Apply(db, op).0.events == db.events + rows && Issued(db, op)
    requires op.AppendDecision? && rows != [] ==> Apply(db, op).1.Committed? && OpenSuspension(db.events, op.step, e)
    requires op.AppendDecision? && Apply(db, op).1.Committed? ==> rows != []
    ensures CyclesCountDecided(Apply(db, op).0)
  {
    hide Apply, OpenSuspension, D.Dense, D.Referential, D.Attributed;
    var db' := Apply(db, op).0;
    forall s | s in db'.steps ensures |DecidedSeqs(db'.events, s)| == db'.steps[s].cycles {
      if s !in db.steps {
        StepsAfter(db, op, s);
        NoRowsNoneDecided(db.events + rows, s);
      } else {
        RowEffect(db, op, s);
        if op.AppendDecision? && op.step == s && rows != [] {
          DecisionCallIsNew(db, op, rows, e);
          OneCallDecidesOne(db.events, rows, s, op.suspension);
          DecidedMeansSome(db.events, s, op.suspension);
        } else {
          DecidedUnchanged(db.events, rows, s);
        }
      }
    }
  }

  lemma {:induction false} DecidedUnchanged(events: seq<Event>, rows: seq<Event>, s: StepId)
    requires forall i :: 0 <= i < |rows| ==> rows[i].step != Some(s) || !rows[i].writer.ByDecision?
    ensures DecidedSeqs(events + rows, s) == DecidedSeqs(events, s)
  {
    if rows == [] {
      assert events + rows == events;
    } else {
      var n := |rows| - 1;
      DecidedUnchanged(events, rows[..n], s);
      assert (events + rows)[..|events| + n] == events + rows[..n];
    }
  }

  lemma {:induction false} NoRowsNoneDecided(events: seq<Event>, s: StepId)
    requires forall i :: 0 <= i < |events| ==> events[i].step != Some(s)
    ensures DecidedSeqs(events, s) == {}
  {
    if events != [] {
      NoRowsNoneDecided(events[..|events| - 1], s);
    }
  }

  lemma StepsKnownKept(db: Db, op: DbOp, rows: seq<Event>)
    requires StepsKnown(db) && OpAdds(db, op, rows) && Apply(db, op).0.events == db.events + rows
    ensures StepsKnown(Apply(db, op).0)
  {
    hide Apply;
    forall s | s in db.steps ensures s in Apply(db, op).0.steps {
      RowEffect(db, op, s);
    }
  }

  lemma ApprovalInvKept(sys: Sys, a: Action)
    requires ClaimInv(sys) && ApprovalInv(sys)
    ensures ApprovalInv(Act(sys, a))
  {
    hide Apply, OpAdds, OpenSuspension, CyclesFollowBodies, HoldsAreHeld, ClaimsAreEpochs, BodiesMatch,
      DecisionsNameSuspensions, OneCallPerSuspension, CyclesCountDecided, StepsKnown, D.Dense, D.Attributed, D.Referential,
      D.EpochsOrdered, D.StateFollowsLog, D.EndsOnce, D.EndedIsTerminal, D.KeysUnique, D.StepShape, NextBody, BodyOp;
    if Enabled(sys, a) {
      var op := OpOf(sys, a);
      var rows := OpRows(sys.db, op);
      CyclesKept(sys, a);
      HoldsKept(sys, a);
      SuspensionsOpenKept(sys, a, rows);
      DecisionCallNames(sys.db, op, rows);
      NamingKept(sys.db.events, rows);
      if op.AppendDecision? && rows != [] {
        AnsweredIsOpen(sys, op, rows);
      }
      ActionIssuesOperation(sys, a);
      DecisionAddsRows(sys.db, op, rows);
      var e := if op.AppendDecision? && op.step in sys.db.steps then sys.db.steps[op.step].epoch else 0;
      OneCallKept(sys.db, op, rows, e);
      CountKept(sys.db, op, rows, e);
      StepsKnownKept(sys.db, op, rows);
    }
  }

  lemma AnsweredIsOpen(sys: Sys, op: DbOp, rows: seq<Event>)
    requires SuspensionsOpen(sys) && OpAdds(sys.db, op, rows) && op.AppendDecision? && rows != []
    ensures op.step in sys.db.steps && OpenSuspension(sys.db.events, op.step, sys.db.steps[op.step].epoch)
  {
  }

  lemma DecisionAddsRows(db: Db, op: DbOp, rows: seq<Event>)
    requires Issued(db, op) && Apply(db, op).0.events == db.events + rows
    ensures op.AppendDecision? && Apply(db, op).1.Committed? ==> rows != []
  {
    if op.AppendDecision? && Apply(db, op).1.Committed? {
      var added := DecisionRows(db, op);
      assert |rows| == |added|;
    }
  }

  lemma {:induction false} ReachableApprovals(cfg: Config, actions: seq<Action>)
    ensures ApprovalInv(Reach(Initial(cfg), actions))
  {
    if actions != [] {
      ReachableApprovals(cfg, actions[..|actions| - 1]);
      ReachableClaims(cfg, actions[..|actions| - 1]);
      ApprovalInvKept(Reach(Initial(cfg), actions[..|actions| - 1]), actions[|actions| - 1]);
    }
  }
}
