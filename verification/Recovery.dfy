// How soon a dead worker's step is claimed again: by the poll after the lease runs out.
module Recovery {
  import opened EventTypes
  import opened Schema
  import opened AppendPaths
  import opened Operations
  import D = DatabaseInvariants
  import opened Effects
  import opened Protocol
  import opened ClaimInvariants

  const LEASE_TTL_SECONDS: nat := 60
  const POLL_SECONDS: nat := 30

  // ----- a dead worker's row ------------------------------------------------------------

  /** The step's lease belongs to a worker that has died. */
  predicate Orphaned(sys: Sys, s: StepId) {
    && s in sys.db.steps
    && var row := sys.db.steps[s];
    && row.state.Leased? && row.owner.Some? && row.lease.Some? && !row.awaiting
    && row.owner.value in sys.workers && sys.workers[row.owner.value].doing.Dead?
  }

  predicate Claims(a: Action, s: StepId) {
    a.TakeClaim? && a.step == s
  }

  /** Nobody touches it but a new claim: a dead worker issues nothing, and everybody else's updates
      name an owner or an epoch that is not the row's. */
  lemma OrphanStands(sys: Sys, a: Action, s: StepId)
    requires ClaimInv(sys) && Orphaned(sys, s) && !(Enabled(sys, a) && Claims(a, s))
    ensures Orphaned(Act(sys, a), s) && Act(sys, a).db.steps[s] == sys.db.steps[s]
    ensures Act(sys, a).db.now >= sys.db.now
  {
    hide Apply, NextBody, BodyOp, D.Inv, OneStepInFlight, OneStepPerRun, BodyMatchesStep;
    if Enabled(sys, a) {
      var op := OpOf(sys, a);
      RowChanger(sys.db, op, s);
      ClockForward(sys.db, op);
      if a.StepBody? {
        BodyMatched(sys, a.step, a.epoch);
        WorkerOf(sys, a.step, a.epoch);
        OwnOps(a.step, a.epoch, sys.bodies[(a.step, a.epoch)], a.choice);
      }
    }
  }

  lemma ClockForward(db: Db, op: DbOp)
    ensures Apply(db, op).0.now >= db.now
  {
    if op.AppendDecision? && op.step in db.steps {
      ClockStill(ClearHold(db, op.step), op.run, op.step, op.suspension, db.steps[op.step].cycles, op.pairs);
    }
  }

  lemma {:induction false} ClockStill(db: Db, run: RunId, step: StepId, suspension: nat, cycle: nat, pairs: seq<Pair>)
    ensures var after := InsertDecisions(db, run, step, suspension, cycle, pairs); after.Some? ==> after.value.now == db.now
  {
    if pairs != [] {
      ClockStill(db, run, step, suspension, cycle, pairs[..|pairs| - 1]);
    }
  }

  lemma WorkerOf(sys: Sys, s: StepId, e: nat)
    requires (s, e) in sys.bodies && s in sys.db.steps && BodyMatchesStep(sys, s, e)
    ensures sys.bodies[(s, e)].worker in sys.workers
  {
  }

  lemma OwnOps(s: StepId, e: nat, b: Body, choice: Choice)
    ensures var op := BodyOp(s, e, b, choice);
            && (FencedOp(op) || op.Nothing? || op == HoldStep(b.worker, s, e) || op == Terminate(s, e))
  {
  }

  lemma {:induction false} OrphanWaits(cfg: Config, actions: seq<Action>, c: nat, i: nat, s: StepId)
    requires c <= i <= |actions| && Orphaned(Reach(Initial(cfg), actions[..c]), s)
    requires forall k :: c <= k < i ==> !(Claims(actions[k], s) && Enabled(Reach(Initial(cfg), actions[..k]), actions[k]))
    ensures var before, after := Reach(Initial(cfg), actions[..c]), Reach(Initial(cfg), actions[..i]);
            && Orphaned(after, s) && after.db.steps[s] == before.db.steps[s] && after.db.now >= before.db.now
    decreases i
  {
    hide Act, ClaimInv, Orphaned;
    if i > c {
      OrphanWaits(cfg, actions, c, i - 1, s);
      ReachableClaims(cfg, actions[..i - 1]);
      assert actions[..i][..i - 1] == actions[..i - 1];
      OrphanStands(Reach(Initial(cfg), actions[..i - 1]), actions[i - 1], s);
    }
  }

  // ----- polling ------------------------------------------------------------------------

  /** What one poll of an idle worker does, as claim_one promises: if any step of its pool is
      claimable it takes an oldest one. No row is locked by another claim at that moment. */
  ghost predicate Poll(sys: Sys, a: Action, v: WorkerId) {
    && v in sys.workers && sys.workers[v].doing.Idle?
    && ((exists s :: Claimable(sys.db, s, sys.workers[v].pool)) ==>
          && a.TakeClaim? && a.worker == v && Claimable(sys.db, a.step, sys.workers[v].pool)
          && forall s :: Claimable(sys.db, s, sys.workers[v].pool) ==>
               sys.db.steps[a.step].created <= sys.db.steps[s].created)
  }

  function At(cfg: Config, actions: seq<Action>, i: nat): Sys
    requires i <= |actions|
  {
    Reach(Initial(cfg), actions[..i])
  }

  /** An idle survivor of the step's pool polls at these moments, poll seconds apart at most, from
      before the lease ends until after it; no older step is claimable when it does. */
  ghost predicate Surviving(cfg: Config, actions: seq<Action>, c: nat, s: StepId, expiry: int, v: WorkerId,
                            polls: seq<nat>, poll: nat)
    requires c <= |actions|
  {
    && s in At(cfg, actions, c).db.steps
    && polls != []
    && (forall j :: 0 <= j < |polls| ==>
          && c <= polls[j] < |actions|
          && Poll(At(cfg, actions, polls[j]), actions[polls[j]], v)
          && At(cfg, actions, polls[j]).workers[v].pool == At(cfg, actions, c).db.steps[s].pool
          && (forall t :: t != s && Claimable(At(cfg, actions, polls[j]).db, t, At(cfg, actions, c).db.steps[s].pool) ==>
                At(cfg, actions, polls[j]).db.steps[t].created > At(cfg, actions, c).db.steps[s].created))
    && (forall j :: 0 <= j < |polls| - 1 ==>
          At(cfg, actions, polls[j + 1]).db.now <= At(cfg, actions, polls[j]).db.now + poll)
    && At(cfg, actions, polls[0]).db.now <= expiry + poll
    && At(cfg, actions, polls[|polls| - 1]).db.now > expiry
  }

  /** The first poll past the expiry comes within one interval of it, strict comparison and all. */
  lemma {:induction false} FirstPollAfter(times: seq<int>, expiry: int, poll: nat) returns (j: nat)
    requires times != [] && times[0] <= expiry + poll && times[|times| - 1] > expiry
    requires forall k :: 0 <= k < |times| - 1 ==> times[k + 1] <= times[k] + poll
    ensures j < |times| && expiry < times[j] <= expiry + poll
  {
    if times[0] > expiry {
      j := 0;
    } else {
      j := FirstPollAfter(times[1..], expiry, poll);
      j := j + 1;
    }
  }

  /** A worker that dies leaves its step claimed again within one poll interval of the lease's end:
      whatever else happens meanwhile, some claim of the step is made by then. */
  lemma RecoveredInTime(cfg: Config, actions: seq<Action>, c: nat, s: StepId, v: WorkerId, polls: seq<nat>, poll: nat)
    returns (i: nat)
    requires c <= |actions| && Orphaned(At(cfg, actions, c), s)
    requires Surviving(cfg, actions, c, s, At(cfg, actions, c).db.steps[s].lease.value, v, polls, poll)
    ensures c <= i < |actions| && Claims(actions[i], s) && Enabled(At(cfg, actions, i), actions[i])
    ensures At(cfg, actions, i).db.now <= At(cfg, actions, c).db.steps[s].lease.value + poll
  {
    hide Reach, Act;
    var row := At(cfg, actions, c).db.steps[s];
    var times := seq(|polls|, j requires 0 <= j < |polls| => At(cfg, actions, polls[j]).db.now);
    var j := FirstPollAfter(times, row.lease.value, poll);
    if k :| c <= k < polls[j] && Claims(actions[k], s) && Enabled(At(cfg, actions, k), actions[k]) {
      i := k;
      ClockMonotone(cfg, actions, k, polls[j]);
    } else {
      i := polls[j];
      OrphanWaits(cfg, actions, c, i, s);
      assert Claimable(At(cfg, actions, i).db, s, row.pool);
    }
  }

  lemma {:induction false} ClockMonotone(cfg: Config, actions: seq<Action>, i: nat, j: nat)
    requires i <= j <= |actions|
    ensures At(cfg, actions, i).db.now <= At(cfg, actions, j).db.now
    decreases j
  {
    hide Apply;
    if i < j {
      ClockMonotone(cfg, actions, i, j - 1);
      assert actions[..j][..j - 1] == actions[..j - 1];
      var sys := At(cfg, actions, j - 1);
      if Enabled(sys, actions[j - 1]) {
        ClockForward(sys.db, OpOf(sys, actions[j - 1]));
      }
    }
  }

  /** The action sets the step's lease: the worker's claim of it, or a heartbeat of that claim that
      the fence lets through. */
  predicate SetsLease(sys: Sys, a: Action, w: WorkerId, s: StepId) {
    && Enabled(sys, a)
    && (a == TakeClaim(w, s)
        || (a == Heartbeat(w) && sys.workers[w].doing.step == s && Apply(sys.db, OpOf(sys, a)).1.RunStateIs?))
  }

  lemma LeaseSet(sys: Sys, a: Action, w: WorkerId, s: StepId)
    requires D.StepShape(sys.db) && SetsLease(sys, a, w, s)
    ensures var db := Act(sys, a).db;
            && s in db.steps && db.steps[s].owner == Some(w) && db.steps[s].lease == Some(sys.db.now + sys.cfg.ttl)
            && !db.steps[s].awaiting
  {
  }

  lemma CrashOrphans(sys: Sys, w: WorkerId, s: StepId)
    requires Enabled(sys, Crash(w)) && s in sys.db.steps && sys.db.steps[s].state.Leased? && !sys.db.steps[s].awaiting
    requires sys.db.steps[s].owner == Some(w) && sys.db.steps[s].lease.Some?
    ensures Orphaned(Act(sys, Crash(w)), s) && Act(sys, Crash(w)).db == sys.db
  {
  }

  /** The derived bound. A worker claims a step or renews its lease at time t and dies before
      anything else changes the row: some worker claims the step by t + 90 under the shipped TTL and
      poll. */
  lemma DerivedBound(cfg: Config, actions: seq<Action>, h: nat, c: nat, w: WorkerId, s: StepId, v: WorkerId,
                     polls: seq<nat>) returns (i: nat)
    requires cfg.ttl == LEASE_TTL_SECONDS && h < c < |actions|
    requires SetsLease(At(cfg, actions, h), actions[h], w, s)
    requires actions[c] == Crash(w) && Enabled(At(cfg, actions, c), actions[c])
    requires s in At(cfg, actions, h + 1).db.steps && At(cfg, actions, h + 1).db.steps[s].state.Leased?
    requires s in At(cfg, actions, c).db.steps && At(cfg, actions, c).db.steps[s] == At(cfg, actions, h + 1).db.steps[s]
    requires Surviving(cfg, actions, c + 1, s, At(cfg, actions, h).db.now + LEASE_TTL_SECONDS, v, polls, POLL_SECONDS)
    ensures c < i < |actions| && Claims(actions[i], s) && Enabled(At(cfg, actions, i), actions[i])
    ensures At(cfg, actions, i).db.now <= At(cfg, actions, h).db.now + 90
  {
    hide Surviving, Act, SetsLease, Orphaned;
    ReachableClaims(cfg, actions[..h]);
    InvParts(At(cfg, actions, h).db);
    ConfigFixed(cfg, actions[..h]);
    assert actions[..h + 1][..h] == actions[..h] && actions[..c + 1][..c] == actions[..c];
    LeaseSet(At(cfg, actions, h), actions[h], w, s);
    CrashOrphans(At(cfg, actions, c), w, s);
    i := RecoveredInTime(cfg, actions, c + 1, s, v, polls, POLL_SECONDS);
  }

  /** The strict comparison costs the whole interval: a poll at the very second the lease ends finds
      nothing, so the bound is attained. */
  lemma BoundIsAttained(db: Db, s: StepId, t: int)
    requires s in db.steps && db.steps[s].state.Leased? && !db.steps[s].awaiting
    requires db.steps[s].lease == Some(t + LEASE_TTL_SECONDS)
    ensures !Claimable(db.(now := t + LEASE_TTL_SECONDS), s, db.steps[s].pool)
    ensures Claimable(db.(now := t + LEASE_TTL_SECONDS + POLL_SECONDS), s, db.steps[s].pool)
  {
  }
}
