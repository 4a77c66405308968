// Facts about the event log alone: order within a run, and what appending rows leaves alone.
module Logs {
  import opened EventTypes
  import opened Schema
  import opened DatabaseInvariants

  // ----- order --------------------------------------------------------------------------

  /** Commit order is seq order within a run. */
  ghost predicate Ascending(log: seq<Event>) {
    forall i, j :: 0 <= i < j < |log| ==> log[i].seqNo < log[j].seqNo
  }

  lemma {:induction false} RunLogHas(events: seq<Event>, i: nat)
    requires i < |events|
    ensures events[i] in RunLog(events, events[i].run)
  {
    var n := |events| - 1;
    if i < n {
      RunLogHas(events[..n], i);
    }
  }

  lemma {:induction false} DenseOrdersRun(events: seq<Event>, run: RunId, n: nat, i: nat, j: nat)
    requires DenseLog(RunLog(events, run), n)
    requires i < j < |events| && events[i].run == run && events[j].run == run
    ensures events[i].seqNo < events[j].seqNo <= n
  {
    var k := |events| - 1;
    var log := RunLog(events, run);
    var before := RunLog(events[..k], run);
    assert DenseLog(before, |before|) by {
      assert forall m :: 0 <= m < |before| ==> before[m] == log[m];
    }
    if j < k {
      DenseOrdersRun(events[..k], run, |before|, i, j);
    } else {
      RunLogHas(events[..k], i);
      var m :| 0 <= m < |before| && before[m] == events[i];
      assert log == before + [events[k]];
      assert log[|before|] == events[j];
    }
  }

  lemma SeqsOrdered(db: Db, i: nat, j: nat)
    requires Dense(db) && Referential(db)
    requires i < j < |db.events| && db.events[i].run == db.events[j].run
    ensures db.events[i].seqNo < db.events[j].seqNo
  {
    var run := db.events[i].run;
    DenseOrdersRun(db.events, run, db.runs[run].nextSeq, i, j);
  }

  lemma SeqInRange(db: Db, i: nat)
    requires Dense(db) && Referential(db) && i < |db.events|
    ensures 1 <= db.events[i].seqNo <= db.runs[db.events[i].run].nextSeq
  {
    RunLogHas(db.events, i);
  }

  /** A step's suspensions, in commit order, are in seq order; the last has the greatest seq. */
  lemma {:induction false} SuspensionsAscend(events: seq<Event>, s: StepId)
    requires forall i, j :: 0 <= i < j < |events| && IsSuspension(events[i], s) && IsSuspension(events[j], s)
               ==> events[i].seqNo < events[j].seqNo
    ensures Ascending(Suspensions(events, s))
  {
    if events != [] {
      var n := |events| - 1;
      SuspensionsAscend(events[..n], s);
      var before := Suspensions(events[..n], s);
      forall i | 0 <= i < |before| && IsSuspension(events[n], s) ensures before[i].seqNo < events[n].seqNo {
        assert before[i] in events[..n];
      }
    }
  }

  lemma {:induction false} MaxOfAscending(log: seq<Event>)
    requires Ascending(log) && log != []
    ensures MaxSeq(log) == log[|log| - 1].seqNo
  {
    var n := |log| - 1;
    if n > 0 {
      MaxOfAscending(log[..n]);
    } else {
      assert MaxSeq(log[..n]) == 0;
    }
  }

  lemma StepSuspensionsAscend(db: Db, s: StepId)
    requires Dense(db) && Referential(db) && Attributed(db)
    ensures Ascending(Suspensions(db.events, s))
    ensures Suspensions(db.events, s) != [] ==>
              MaxSeq(Suspensions(db.events, s)) == Suspensions(db.events, s)[|Suspensions(db.events, s)| - 1].seqNo
  {
    forall i, j | 0 <= i < j < |db.events| && IsSuspension(db.events[i], s) && IsSuspension(db.events[j], s)
      ensures db.events[i].seqNo < db.events[j].seqNo
    {
      assert AttributedRow(db, db.events[i]) && AttributedRow(db, db.events[j]);
      SeqsOrdered(db, i, j);
    }
    SuspensionsAscend(db.events, s);
    if Suspensions(db.events, s) != [] {
      MaxOfAscending(Suspensions(db.events, s));
    }
  }

  // ----- decisions ----------------------------------------------------------------------

  predicate DecisionOn(e: Event, s: StepId, suspension: nat) {
    e.step == Some(s) && e.writer.ByDecision? && e.writer.suspension == suspension
  }

  ghost predicate Undecided(events: seq<Event>, s: StepId, suspension: nat) {
    forall i :: 0 <= i < |events| ==> !DecisionOn(events[i], s, suspension)
  }

  /** The suspensions of a step that some decision row answers. */
  function DecidedSeqs(events: seq<Event>, s: StepId): set<nat> {
    if events == [] then {}
    else
      var e := events[|events| - 1];
      DecidedSeqs(events[..|events| - 1], s)
      + if e.step == Some(s) && e.writer.ByDecision? then {e.writer.suspension} else {}
  }

  lemma {:induction false} DecidedMeansSome(events: seq<Event>, s: StepId, n: nat)
    ensures n in DecidedSeqs(events, s) <==> !Undecided(events, s, n)
  {
    if events != [] {
      var k := |events| - 1;
      DecidedMeansSome(events[..k], s, n);
      if !Undecided(events, s, n) {
        var i :| 0 <= i < |events| && DecisionOn(events[i], s, n);
        assert i < k ==> DecisionOn(events[..k][i], s, n);
      }
      if !Undecided(events[..k], s, n) {
        var i :| 0 <= i < k && DecisionOn(events[..k][i], s, n);
        assert DecisionOn(events[i], s, n);
      }
    }
  }

  // ----- appending rows -----------------------------------------------------------------

  lemma {:induction false} ForeignRowsChangeNothing(events: seq<Event>, rows: seq<Event>, s: StepId)
    requires forall i :: 0 <= i < |rows| ==> rows[i].step != Some(s)
    ensures Suspensions(events + rows, s) == Suspensions(events, s)
    ensures DecidedSeqs(events + rows, s) == DecidedSeqs(events, s)
  {
    if rows == [] {
      assert events + rows == events;
    } else {
      var n := |rows| - 1;
      ForeignRowsChangeNothing(events, rows[..n], s);
      assert (events + rows)[..|events| + n] == events + rows[..n];
    }
  }

  lemma {:induction false} OneCallDecidesOne(events: seq<Event>, rows: seq<Event>, s: StepId, n: nat)
    requires rows != [] && forall i :: 0 <= i < |rows| ==> DecisionOn(rows[i], s, n) && !rows[i].kind.StepSuspended?
    ensures Suspensions(events + rows, s) == Suspensions(events, s)
    ensures DecidedSeqs(events + rows, s) == DecidedSeqs(events, s) + {n}
  {
    var k := |rows| - 1;
    assert (events + rows)[..|events| + k] == events + rows[..k];
    if k == 0 {
      assert events + rows[..k] == events;
    } else {
      OneCallDecidesOne(events, rows[..k], s, n);
    }
  }
}
