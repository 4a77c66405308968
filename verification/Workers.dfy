// What each action of a worker's supervisor does in any reachable state of the whole system.
module Workers {
  import opened EventTypes
  import opened Schema
  import opened AppendPaths
  import opened Operations
  import D = DatabaseInvariants
  import opened Effects
  import opened Protocol
  import opened ClaimInvariants

  /** The row is still this claim's. */
  predicate StillOwns(db: Db, w: WorkerId, s: StepId, e: nat) {
    s in db.steps && db.steps[s].owner == Some(w) && db.steps[s].epoch == e
  }

  /** The claim a worker is on names a step of a run that exists. */
  lemma ClaimStands(cfg: Config, actions: seq<Action>, w: WorkerId)
    requires OnClaim(Reach(Initial(cfg), actions), w)
    ensures var sys := Reach(Initial(cfg), actions);
            var (s, e) := Current(sys, w);
            s in sys.db.steps && sys.db.steps[s].run in sys.db.runs && sys.bodies[(s, e)].worker == w
  {
    hide Reach, BodiesMatch, OneStepPerRun, D.Inv;
    ReachableClaims(cfg, actions);
    var sys := Reach(Initial(cfg), actions);
    InvParts(sys.db);
    assert InFlight(sys, w);
  }

  /** A heartbeat extends the lease of a row that is still the claim's, and stops the worker's step exactly
      if the row is not or the run is over. */
  lemma HeartbeatExactly(cfg: Config, actions: seq<Action>, w: WorkerId)
    requires OnClaim(Reach(Initial(cfg), actions), w)
    ensures var sys := Reach(Initial(cfg), actions);
            var (s, e) := Current(sys, w);
            var after := Act(sys, Heartbeat(w));
            && s in sys.db.steps && sys.db.steps[s].run in sys.db.runs && after.bodies == sys.bodies
            && after.db == (if StillOwns(sys.db, w, s, e)
                            then sys.db.(steps := sys.db.steps[s := sys.db.steps[s].(lease := Some(sys.db.now + cfg.ttl))])
                            else sys.db)
            && after.workers == (if StillOwns(sys.db, w, s, e) && !Terminal(sys.db.runs[sys.db.steps[s].run].state)
                                 then sys.workers
                                 else sys.workers[w := sys.workers[w].(doing := Abandoning(s, e))])
  {
    hide Reach;
    ClaimStands(cfg, actions, w);
    ConfigFixed(cfg, actions);
  }

  /** A claim takes the next epoch of a claimable step of the worker's pool, and starts its body. */
  lemma ClaimExactly(cfg: Config, actions: seq<Action>, w: WorkerId, s: StepId)
    ensures var sys := Reach(Initial(cfg), actions);
            && (Enabled(sys, TakeClaim(w, s)) <==>
                  w in sys.workers && sys.workers[w].doing == Idle && Claimable(sys.db, s, sys.workers[w].pool))
            && (Enabled(sys, TakeClaim(w, s)) ==>
                  var after, row := Act(sys, TakeClaim(w, s)), sys.db.steps[s];
                  var e := row.epoch + 1;
                  && (s, e) !in sys.bodies
                  && after.db == sys.db.(steps := sys.db.steps[s := row.(state := Leased, owner := Some(w), epoch := e,
                                                                         lease := Some(sys.db.now + cfg.ttl))])
                  && after.workers == sys.workers[w := sys.workers[w].(doing := Executing(s, e))]
                  && after.bodies.Keys == sys.bodies.Keys + {(s, e)}
                  && (forall c :: c in sys.bodies ==> after.bodies[c] == sys.bodies[c])
                  && after.bodies[(s, e)].worker == w && after.bodies[(s, e)].run == row.run
                  && after.bodies[(s, e)].pc == (if row.pool == "analysis" then ReadFailed else ReadCycles))
  {
    hide Reach, BodiesMatch, OneStepPerRun, D.Inv, OneStepInFlight, OwnerClaimedLast;
    ReachableClaims(cfg, actions);
    ConfigFixed(cfg, actions);
  }

  /** A body that has returned is released with its outcome, and the worker polls again. */
  lemma FinishExactly(cfg: Config, actions: seq<Action>, w: WorkerId)
    requires OnClaim(Reach(Initial(cfg), actions), w)
    ensures var sys := Reach(Initial(cfg), actions);
            var (s, e) := Current(sys, w);
            && (Enabled(sys, Finish(w)) <==> sys.bodies[(s, e)].pc.Done?)
            && (Enabled(sys, Finish(w)) ==>
                  var after := Act(sys, Finish(w));
                  && after.bodies == sys.bodies && after.workers == sys.workers[w := sys.workers[w].(doing := Idle)]
                  && s in sys.db.steps
                  && after.db == if StillOwns(sys.db, w, s, e)
                                 then sys.db.(steps := sys.db.steps[s := sys.db.steps[s].(
                                        state := if sys.bodies[(s, e)].pc == Done(Succeeded) then Finished else Faulted,
                                        lease := None)])
                                 else sys.db)
  {
    hide Reach;
    ClaimStands(cfg, actions, w);
  }

  /** A drain ends the lease of a row the worker still owns, and the worker claims no more. */
  lemma DrainExactly(cfg: Config, actions: seq<Action>, w: WorkerId)
    requires OnClaim(Reach(Initial(cfg), actions), w)
    ensures var sys := Reach(Initial(cfg), actions);
            var (s, e) := Current(sys, w);
            && (Enabled(sys, Drain(w)) <==> sys.bodies[(s, e)].pc.Done?)
            && (Enabled(sys, Drain(w)) ==>
                  var after := Act(sys, Drain(w));
                  && after.bodies == sys.bodies && after.workers == sys.workers[w := sys.workers[w].(doing := Leaving)]
                  && s in sys.db.steps
                  && after.db == if sys.db.steps[s].owner == Some(w)
                                 then sys.db.(steps := sys.db.steps[s := sys.db.steps[s].(lease := Some(sys.db.now))])
                                 else sys.db)
  {
    hide Reach;
    ClaimStands(cfg, actions, w);
  }

  /** A worker that was abandoning its step polls again if the body has returned; whatever else it was
      doing it claims no more. No row is touched. */
  lemma LeaveExactly(sys: Sys, w: WorkerId)
    requires w in sys.workers && sys.workers[w].doing != Dead
    ensures Enabled(sys, Leave(w))
    ensures var doing := sys.workers[w].doing;
            Act(sys, Leave(w))
            == sys.(workers := sys.workers[w := sys.workers[w].(
                 doing := if doing.Abandoning? && (doing.step, doing.epoch) in sys.bodies
                             && sys.bodies[(doing.step, doing.epoch)].pc.Done?
                          then Idle else Leaving)])
  {
  }

  /** A crash can come at any moment and changes nothing but the worker. */
  lemma CrashExactly(sys: Sys, w: WorkerId)
    requires w in sys.workers
    ensures Enabled(sys, Crash(w)) && Act(sys, Crash(w)) == sys.(workers := sys.workers[w := sys.workers[w].(doing := Dead)])
  {
  }

  /** A dead worker does nothing more: it stays dead, its bodies stand where they were, and no action
      of its own is left. */
  lemma {:induction false} DeadForGood(cfg: Config, actions: seq<Action>, n: nat, w: WorkerId)
    requires n <= |actions|
    requires var sys := Reach(Initial(cfg), actions[..n]); w in sys.workers && sys.workers[w].doing.Dead?
    ensures var before, after := Reach(Initial(cfg), actions[..n]), Reach(Initial(cfg), actions);
            && w in after.workers && after.workers[w].doing.Dead?
            && (forall c :: c in before.bodies && before.bodies[c].worker == w ==>
                  c in after.bodies && after.bodies[c] == before.bodies[c])
            && (forall a :: (a == Heartbeat(w) || a == Finish(w) || a == Drain(w) || a == Leave(w) || (a.TakeClaim? && a.worker == w))
                  ==> !Enabled(after, a))
  {
    hide Reach;
    if n == |actions| {
      assert actions[..n] == actions;
    } else {
      hide Act;
      var k := |actions| - 1;
      assert actions[..k][..n] == actions[..n] && actions[..k + 1] == actions;
      DeadForGood(cfg, actions[..k], n, w);
      ReachableClaims(cfg, actions[..k]);
      ReachStep(cfg, actions, k);
      DeadStep(Reach(Initial(cfg), actions[..k]), actions[k], w);
    }
  }

  lemma DeadStep(sys: Sys, a: Action, w: WorkerId)
    requires ClaimsAreEpochs(sys) && w in sys.workers && sys.workers[w].doing.Dead?
    ensures w in Act(sys, a).workers && Act(sys, a).workers[w].doing.Dead?
    ensures forall c :: c in sys.bodies && sys.bodies[c].worker == w ==>
              c in Act(sys, a).bodies && Act(sys, a).bodies[c] == sys.bodies[c]
  {
    hide Apply, NextBody, BodyOp;
  }
}
