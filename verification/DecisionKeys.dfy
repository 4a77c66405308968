// Decision keys `<suspension_seq>:<call_id>` and the prefix lookup over them.
module DecisionKeys {
  import opened EventTypes
  import opened Digits
  import opened Schema
  import D = DatabaseInvariants
  import opened Protocol

  /** A key starts with a suspension's prefix exactly when it was minted for that suspension:
      '1:' is no prefix of the keys of suspension 12. */
  lemma PrefixNamesSuspension(n: nat, call: string, m: nat)
    ensures HasPrefix(DecisionKey(n, call), DecisionPrefix(m)) <==> n == m
  {
    var key, prefix := DecisionKey(n, call), DecisionPrefix(m);
    var p, q := Numeral(n), Numeral(m);
    assert key == p + ":" + call && key[|p|] == ':' && prefix[|q|] == ':';
    assert |p| < |q| ==> prefix[|p|] == q[|p|];
    assert |q| < |p| ==> key[|q|] == p[|q|];
    if HasPrefix(key, prefix) {
      assert forall i :: 0 <= i <= |q| ==> key[i] == prefix[i];
      assert |p| == |q|;
      assert forall i :: 0 <= i < |p| ==> p[i] == key[i] && q[i] == prefix[i];
      assert p == q;
      NumeralInjective(n, m);
    }
    if n == m {
      assert key[..|prefix|] == prefix;
    }
  }

  /** A key is the suspension's number, a colon and the call, and the call is what follows the prefix. */
  lemma CallRecovered(n: nat, call: string)
    ensures DecisionKey(n, call) == Numeral(n) + ":" + call
    ensures DecisionKey(n, call)[|DecisionPrefix(n)|..] == call
  {
  }

  /** Keys are injective: a key names one suspension and one call. */
  lemma KeysInjective(n: nat, c: string, m: nat, d: string)
    requires DecisionKey(n, c) == DecisionKey(m, d)
    ensures n == m && c == d
  {
    PrefixNamesSuspension(m, d, m);
    PrefixNamesSuspension(n, c, m);
    CallRecovered(n, c);
    CallRecovered(m, d);
  }

  /** A decision row of the run answering the suspension at seq n. */
  predicate AnswersSome(e: Event, run: RunId, n: nat) {
    e.run == run && DecisionKind(e.kind) && e.writer.ByDecision? && e.writer.suspension == n
  }

  predicate Answers(e: Event, run: RunId, n: nat, call: string) {
    AnswersSome(e, run, n) && e.writer.call == call
  }

  ghost predicate Keyed(events: seq<Event>) {
    forall i :: 0 <= i < |events| && DecisionKind(events[i].kind) ==>
      events[i].writer.ByDecision?
      && events[i].key == Some(DecisionKey(events[i].writer.suspension, events[i].writer.call))
  }

  lemma AttributedIsKeyed(db: Db)
    requires D.Attributed(db)
    ensures Keyed(db.events)
  {
    forall i | 0 <= i < |db.events| && DecisionKind(db.events[i].kind)
      ensures db.events[i].writer.ByDecision?
              && db.events[i].key == Some(DecisionKey(db.events[i].writer.suspension, db.events[i].writer.call))
    {
      assert D.AttributedRow(db, db.events[i]);
    }
  }

  /** The prefix lookup recovers exactly one suspension's rows: a call is in the dictionary if and
      only if a row of that suspension answers it, and the value is that row's verdict. */
  lemma {:induction false} LookupIsExact(events: seq<Event>, run: RunId, n: nat, call: string)
    requires Keyed(events) && D.KeysUnique(events)
    ensures var found := CommittedDecisions(events, run, n);
            && (call in found <==> exists i :: 0 <= i < |events| && Answers(events[i], run, n, call))
            && (forall i :: 0 <= i < |events| && Answers(events[i], run, n, call) ==>
                  call in found && found[call] == events[i].kind.ApprovalGranted?)
  {
    if events != [] {
      var k := |events| - 1;
      var before := events[..k];
      var e := events[k];
      LookupIsExact(before, run, n, call);
      RowInLookup(e, run, n);
      assert forall i :: 0 <= i < k ==> before[i] == events[i];
      if exists i :: 0 <= i < k && Answers(before[i], run, n, call) {
        var i :| 0 <= i < k && Answers(before[i], run, n, call);
        assert Answers(events[i], run, n, call);
        assert !Answers(e, run, n, call) by { assert events[i].key == Some(DecisionKey(n, call)); }
      }
      forall i | 0 <= i < |events| && Answers(events[i], run, n, call)
        ensures var found := CommittedDecisions(events, run, n);
                call in found && found[call] == events[i].kind.ApprovalGranted?
      {
        if i < k {
          assert Answers(before[i], run, n, call);
        }
      }
    }
  }

  lemma RowInLookup(e: Event, run: RunId, n: nat)
    requires DecisionKind(e.kind) ==> e.writer.ByDecision? && e.key == Some(DecisionKey(e.writer.suspension, e.writer.call))
    ensures IsDecisionRow(e, run, DecisionPrefix(n)) <==> Answers(e, run, n, if e.writer.ByDecision? then e.writer.call else "")
    ensures IsDecisionRow(e, run, DecisionPrefix(n)) ==>
              e.key.value[|DecisionPrefix(n)|..] == e.writer.call
  {
    if DecisionKind(e.kind) {
      PrefixNamesSuspension(e.writer.suspension, e.writer.call, n);
      CallRecovered(e.writer.suspension, e.writer.call);
    }
  }
}
