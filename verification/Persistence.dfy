// approval_results_for_cycle: the decision lookup a resume makes, as the loop over query rows
// that fills its dictionary. The query carries no ORDER BY, so the rows come in any order.
module Persistence {
  import opened EventTypes
  import opened Schema
  import D = DatabaseInvariants
  import opened DecisionKeys
  import opened Protocol

  /** What the lookup returns, None being the LookupError: no such cycle, no decision for the
      suspension it names, or a pending call without one. */
  function ResultsForCycle(db: Db, step: StepId, cycle: int, pending: seq<string>): Option<map<string, bool>> {
    if cycle < 1 then None
    else
      match NthSuspension(db.events, step, cycle)
      case None => None
      case Some(n) =>
        if step !in db.steps then None
        else Approvals(CommittedDecisions(db.events, db.steps[step].run, n), pending)
  }

  /** Two rows that answer the same call of a suspension carry the same verdict. */
  lemma OneVerdict(events: seq<Event>, run: RunId, n: nat, a: Event, b: Event)
    requires Keyed(events) && D.KeysUnique(events) && a in events && b in events
    requires AnswersSome(a, run, n) && AnswersSome(b, run, n) && a.writer.call == b.writer.call
    ensures a == b
  {
    var i :| 0 <= i < |events| && events[i] == a;
    var j :| 0 <= j < |events| && events[j] == b;
  }

  /** A dictionary that agrees with the rows, in whatever order they were read, is the lookup. */
  lemma AgreeingIsExact(events: seq<Event>, run: RunId, n: nat, rows: seq<Event>, committed: map<string, bool>)
    requires Keyed(events) && D.KeysUnique(events) && multiset(rows) == multiset(events)
    requires Agrees(rows, run, n, committed)
    ensures committed == CommittedDecisions(events, run, n)
  {
    SameRows(rows, events);
    forall id
      ensures id in committed <==> id in CommittedDecisions(events, run, n)
      ensures id in committed ==> committed[id] == CommittedDecisions(events, run, n)[id]
    {
      LookupIsExact(events, run, n, id);
      if id in committed {
        var k :| 0 <= k < |rows| && Answers(rows[k], run, n, id) && committed[id] == rows[k].kind.ApprovalGranted?;
        assert rows[k] in events;
      }
      if i :| 0 <= i < |events| && Answers(events[i], run, n, id) {
        assert events[i] in rows;
      }
    }
  }

  lemma SameRows(rows: seq<Event>, events: seq<Event>)
    requires multiset(rows) == multiset(events)
    ensures forall e :: e in rows <==> e in events
  {
    forall e ensures e in rows <==> e in events {
      assert e in rows <==> e in multiset(rows);
    }
  }

  ghost predicate Agrees(rows: seq<Event>, run: RunId, n: nat, committed: map<string, bool>) {
    && (forall id :: id in committed ==>
          exists k :: 0 <= k < |rows| && Answers(rows[k], run, n, id) && committed[id] == rows[k].kind.ApprovalGranted?)
    && (forall k :: 0 <= k < |rows| && AnswersSome(rows[k], run, n) ==>
          rows[k].writer.call in committed && committed[rows[k].writer.call] == rows[k].kind.ApprovalGranted?)
  }

  lemma AgreesSnoc(events: seq<Event>, rows: seq<Event>, k: nat, run: RunId, n: nat, committed: map<string, bool>)
    requires Keyed(events) && D.KeysUnique(events) && k < |rows| && forall e :: e in rows ==> e in events
    requires Agrees(rows[..k], run, n, committed)
    ensures var prefix := DecisionPrefix(n);
            var e := rows[k];
            Agrees(rows[..k + 1], run, n,
                   if IsDecisionRow(e, run, prefix)
                   then committed[e.key.value[|prefix|..] := e.kind.ApprovalGranted?] else committed)
  {
    var e := rows[k];
    assert e in rows;
    RowInLookup(e, run, n);
    assert rows[..k + 1] == rows[..k] + [e];
    if AnswersSome(e, run, n) {
      assert Answers(e, run, n, e.writer.call);
      forall j | 0 <= j < k && AnswersSome(rows[j], run, n) && rows[j].writer.call == e.writer.call
        ensures rows[j] == e
      {
        OneVerdict(events, run, n, rows[j], e);
      }
      assert forall j :: 0 <= j < k ==> rows[..k + 1][j] == rows[..k][j] == rows[j];
    }
    assert AnswersSome(e, run, n) <==> IsDecisionRow(e, run, DecisionPrefix(n));
  }

  method ApprovalResultsForCycle(db: Db, step: StepId, cycle: int, pending: seq<string>, rows: seq<Event>)
    returns (results: Option<map<string, bool>>)
    requires Keyed(db.events) && D.KeysUnique(db.events) && multiset(rows) == multiset(db.events)
    ensures results == ResultsForCycle(db, step, cycle, pending)
  {
    if cycle < 1 {
      return None;
    }
    var nth := NthSuspension(db.events, step, cycle);
    if nth.None? || step !in db.steps {
      return None;
    }
    var run, prefix := db.steps[step].run, DecisionPrefix(nth.value);
    SameRows(rows, db.events);
    var committed: map<string, bool> := map[];
    for k := 0 to |rows|
      invariant Agrees(rows[..k], run, nth.value, committed)
    {
      AgreesSnoc(db.events, rows, k, run, nth.value, committed);
      if IsDecisionRow(rows[k], run, prefix) {
        committed := committed[rows[k].key.value[|prefix|..] := rows[k].kind.ApprovalGranted?];
      }
    }
    assert rows[..|rows|] == rows;
    AgreeingIsExact(db.events, run, nth.value, rows, committed);
    if committed == map[] {
      return None;
    }
    var missing := false;
    for k := 0 to |pending|
      invariant missing <==> exists i :: 0 <= i < k && pending[i] !in committed
    {
      missing := missing || pending[k] !in committed;
    }
    if missing {
      return None;
    }
    results := Some(map id | id in pending && id in committed :: committed[id]);
  }
}
