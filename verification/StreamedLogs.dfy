// The logs the streams read are the protocol's: whatever any worker or caller does, a run's
// committed events are densely numbered and are only ever added to.
module StreamedLogs {
  import opened EventTypes
  import opened Schema
  import opened Operations
  import D = DatabaseInvariants
  import opened Effects
  import opened Protocol
  import opened ClaimInvariants
  import opened Cursors
  import Sse
  import Stream

  /** The envelopes of a run's rows, json giving the text each is serialised to. */
  function Envelopes(log: seq<Event>, json: Event -> string): (envelopes: seq<Sse.Envelope>)
    ensures |envelopes| == |log|
    ensures forall i :: 0 <= i < |log| ==>
              envelopes[i] == Sse.Envelope(log[i].seqNo, json(log[i]), TerminalEvent(log[i].kind))
  {
    seq(|log|, i requires 0 <= i < |log| => Sse.Envelope(log[i].seqNo, json(log[i]), TerminalEvent(log[i].kind)))
  }

  lemma {:induction false} RunLogGrows(events: seq<Event>, rows: seq<Event>, run: RunId)
    ensures RunLog(events, run) <= RunLog(events + rows, run)
  {
    if rows == [] {
      assert events + rows == events;
    } else {
      var n := |rows| - 1;
      RunLogGrows(events, rows[..n], run);
      RunLogSnoc(events + rows[..n], rows[n], run);
      assert events + rows == events + rows[..n] + [rows[n]];
    }
  }

  lemma {:induction false} ReachGrows(cfg: Config, actions: seq<Action>, n: nat, run: RunId)
    requires n <= |actions|
    ensures RunLog(Reach(Initial(cfg), actions[..n]).db.events, run) <= RunLog(Reach(Initial(cfg), actions).db.events, run)
  {
    if n == |actions| {
      assert actions[..n] == actions;
    } else {
      hide Act, RunLog;
      var k := |actions| - 1;
      ReachGrows(cfg, actions[..k], n, run);
      assert actions[..k][..n] == actions[..n];
      ActGrows(Reach(Initial(cfg), actions[..k]), actions[k], run);
    }
  }

  lemma ActGrows(sys: Sys, a: Action, run: RunId)
    ensures RunLog(sys.db.events, run) <= RunLog(Act(sys, a).db.events, run)
  {
    hide Apply, RunLog;
    if Enabled(sys, a) {
      var rows := OpRows(sys.db, OpOf(sys, a));
      RunLogGrows(sys.db.events, rows, run);
    }
  }

  /** The run's log after m actions, as it is streamed. */
  function LogAt(cfg: Config, actions: seq<Action>, run: RunId, json: Event -> string, m: nat): seq<Sse.Envelope>
    requires m <= |actions|
  {
    Envelopes(RunLog(Reach(Initial(cfg), actions[..m]).db.events, run), json)
  }

  lemma LogsNest(cfg: Config, actions: seq<Action>, run: RunId, json: Event -> string, m: nat, n: nat)
    requires m <= n <= |actions|
    ensures LogAt(cfg, actions, run, json, m) <= LogAt(cfg, actions, run, json, n)
    ensures Stream.Dense(LogAt(cfg, actions, run, json, m))
  {
    ReachGrows(cfg, actions[..n], m, run);
    assert actions[..n][..m] == actions[..m];
    LogDense(cfg, actions[..m], run);
    EnvelopesDense(RunLog(Reach(Initial(cfg), actions[..m]).db.events, run), json);
  }

  /** What a stream sees that polls at these moments. */
  ghost function LogsAt(cfg: Config, actions: seq<Action>, run: RunId, json: Event -> string, moments: seq<nat>)
    : (logs: seq<seq<Sse.Envelope>>)
    requires forall k :: 0 <= k < |moments| ==> moments[k] <= |actions|
    ensures |logs| == |moments|
    ensures forall k :: 0 <= k < |logs| ==> logs[k] == LogAt(cfg, actions, run, json, moments[k])
  {
    seq(|moments|, k requires 0 <= k < |moments| => LogAt(cfg, actions, run, json, moments[k]))
  }

  /** The polls of a stream, taken at any moments of any run of the system, see a dense log that
      only grows: what the streaming theorems ask of them. */
  lemma PollsSeeGrowingLog(cfg: Config, actions: seq<Action>, run: RunId, json: Event -> string, moments: seq<nat>)
    requires forall k :: 0 <= k < |moments| ==> moments[k] <= |actions|
    requires forall j, k :: 0 <= j <= k < |moments| ==> moments[j] <= moments[k]
    ensures Stream.Growing(LogsAt(cfg, actions, run, json, moments))
  {
    hide LogAt;
    var polls := LogsAt(cfg, actions, run, json, moments);
    forall j, k | 0 <= j <= k < |polls| ensures polls[j] <= polls[k] && Stream.Dense(polls[j]) {
      LogsNest(cfg, actions, run, json, moments[j], moments[k]);
    }
  }

  lemma EnvelopesDense(log: seq<Event>, json: Event -> string)
    requires D.DenseLog(log, |log|)
    ensures Stream.Dense(Envelopes(log, json))
  {
  }

  lemma LogDense(cfg: Config, actions: seq<Action>, run: RunId)
    ensures var log := RunLog(Reach(Initial(cfg), actions).db.events, run); D.DenseLog(log, |log|)
  {
    ReachableClaims(cfg, actions);
    var db := Reach(Initial(cfg), actions).db;
    if run in db.runs {
      assert D.DenseLog(RunLog(db.events, run), db.runs[run].nextSeq);
    } else {
      D.NoRowsNoLog(db.events, run);
    }
  }
  // ----- a client of any run of the system ----------------------------------------------

  /** One connection: when its cursor was chosen, when it polled, what it was sent, where it was cut. */
  datatype Visit = Visit(start: nat, polls: seq<nat>, sent: seq<Sse.Envelope>, arrived: nat) {
    ghost predicate During(n: nat) {
      && polls != [] && start <= polls[0] && polls[|polls| - 1] <= n
      && forall j, k :: 0 <= j <= k < |polls| ==> polls[j] <= polls[k]
    }
  }

  ghost function ConnectionOf(cfg: Config, actions: seq<Action>, run: RunId, json: Event -> string, v: Visit): Stream.Connection
    requires v.During(|actions|)
  {
    Stream.Connection(LogAt(cfg, actions, run, json, v.start),
                      LogsAt(cfg, actions, run, json, v.polls), v.sent, v.arrived)
  }

  ghost function Connections(cfg: Config, actions: seq<Action>, run: RunId, json: Event -> string, visits: seq<Visit>)
    : (connections: seq<Stream.Connection>)
    requires forall i :: 0 <= i < |visits| ==> visits[i].During(|actions|)
    ensures |connections| == |visits|
    ensures forall i :: 0 <= i < |visits| ==> connections[i] == ConnectionOf(cfg, actions, run, json, visits[i])
  {
    seq(|visits|, i requires 0 <= i < |visits| => ConnectionOf(cfg, actions, run, json, visits[i]))
  }

  /** A client's connections to the stream of one run of the system: one after another, each sent what
      the generator yields over the logs at its moments, and none opened after a terminal event. */
  ghost predicate Watched(cfg: Config, actions: seq<Action>, run: RunId, json: Event -> string, query: seq<string>,
                          visits: seq<Visit>)
  {
    && (forall i :: 0 <= i < |visits| ==> visits[i].During(|actions|))
    && (visits == []
        || var n := |visits| - 1;
           var c, reader := ConnectionOf(cfg, actions, run, json, visits[n]),
                            Stream.AfterSession(Connections(cfg, actions, run, json, visits[..n]));
           && Watched(cfg, actions, run, json, query, visits[..n])
           && (n > 0 ==> visits[n - 1].polls[|visits[n - 1].polls| - 1] <= visits[n].start)
           && Stream.StillReading(c.Log(), reader)
           && match SelectedCursor(query, Stream.Header(reader.lastId), |c.start|)
              case At(cursor) => Stream.Streamed(c.polls, cursor, c.sent)
              case _ => c.sent == [])
  }

  ghost predicate PlainText(json: Event -> string) {
    forall e :: Sse.Plain(json(e))
  }

  lemma VisitServed(cfg: Config, actions: seq<Action>, run: RunId, json: Event -> string, v: Visit)
    requires v.During(|actions|) && PlainText(json)
    ensures var c := ConnectionOf(cfg, actions, run, json, v);
            && c.polls != [] && Stream.Growing([c.start] + c.polls) && Sse.AllPlain(c.Log())
            && |c.Log()| <= |RunLog(Reach(Initial(cfg), actions).db.events, run)|
  {
    hide Reach, RunLog, PlainText;
    var c := ConnectionOf(cfg, actions, run, json, v);
    LogPlain(cfg, actions, run, json, v.polls[|v.polls| - 1]);
    hide LogAt;
    var moments := [v.start] + v.polls;
    PollsSeeGrowingLog(cfg, actions, run, json, moments);
    assert [c.start] + c.polls == LogsAt(cfg, actions, run, json, moments);
    LogsNest(cfg, actions, run, json, moments[|moments| - 1], |actions|);
    LogWhole(cfg, actions, run, json);
  }

  lemma LogPlain(cfg: Config, actions: seq<Action>, run: RunId, json: Event -> string, m: nat)
    requires m <= |actions| && PlainText(json)
    ensures Sse.AllPlain(LogAt(cfg, actions, run, json, m))
  {
    hide Reach, RunLog, Sse.Plain;
  }

  lemma LogWhole(cfg: Config, actions: seq<Action>, run: RunId, json: Event -> string)
    ensures |LogAt(cfg, actions, run, json, |actions|)| == |RunLog(Reach(Initial(cfg), actions).db.events, run)|
  {
    hide Reach, RunLog;
    assert actions[..|actions|] == actions;
  }

  lemma WatchedDuring(cfg: Config, actions: seq<Action>, run: RunId, json: Event -> string, query: seq<string>, visits: seq<Visit>)
    requires Watched(cfg, actions, run, json, query, visits)
    ensures forall i :: 0 <= i < |visits| ==> visits[i].During(|actions|)
  {
  }

  lemma LastServed(cfg: Config, actions: seq<Action>, run: RunId, json: Event -> string, query: seq<string>, visits: seq<Visit>)
    requires Watched(cfg, actions, run, json, query, visits) && PlainText(json) && visits != []
    requires |RunLog(Reach(Initial(cfg), actions).db.events, run)| < BIGINT_END
    ensures var n := |visits| - 1;
            Stream.Served(query, Stream.AfterSession(Connections(cfg, actions, run, json, visits[..n])),
                          ConnectionOf(cfg, actions, run, json, visits[n]))
  {
    hide Reach, RunLog, Stream.AfterSession, Stream.StillReading, Stream.Streamed, Stream.Growing, Sse.AllPlain, ConnectionOf,
      Connections, SelectedCursor, PlainText;
    VisitServed(cfg, actions, run, json, visits[|visits| - 1]);
  }

  lemma LastFollows(cfg: Config, actions: seq<Action>, run: RunId, json: Event -> string, query: seq<string>, visits: seq<Visit>)
    requires Watched(cfg, actions, run, json, query, visits) && |visits| > 1
    ensures var n := |visits| - 1;
            ConnectionOf(cfg, actions, run, json, visits[n - 1]).Log() <= ConnectionOf(cfg, actions, run, json, visits[n]).start
  {
    hide Reach, RunLog, LogAt, Stream.AfterSession, Stream.StillReading, Stream.Streamed, Connections, SelectedCursor;
    var n := |visits| - 1;
    var last := visits[n - 1].polls;
    LogsNest(cfg, actions, run, json, last[|last| - 1], visits[n].start);
  }

  lemma {:induction false} WatchedIsSession(cfg: Config, actions: seq<Action>, run: RunId, json: Event -> string,
                                            query: seq<string>, visits: seq<Visit>)
    requires Watched(cfg, actions, run, json, query, visits) && PlainText(json)
    requires |RunLog(Reach(Initial(cfg), actions).db.events, run)| < BIGINT_END
    ensures Stream.Session(query, Connections(cfg, actions, run, json, visits))
  {
    hide Reach, RunLog, Stream.AfterSession, Stream.StillReading, Stream.Streamed, Stream.Served, ConnectionOf, SelectedCursor,
      PlainText, Connections, LogAt, LogsAt, Stream.AfterConnection;
    if visits != [] {
      var n := |visits| - 1;
      var connections := Connections(cfg, actions, run, json, visits);
      assert connections[..n] == Connections(cfg, actions, run, json, visits[..n]);
      WatchedIsSession(cfg, actions, run, json, query, visits[..n]);
      LastServed(cfg, actions, run, json, query, visits);
      if n > 0 {
        LastFollows(cfg, actions, run, json, query, visits);
      }
    }
  }

  /** Whatever any worker or caller does, a client of a run's stream that was first accepted at `after`
      holds the run's committed events after + 1, after + 2, ... once each, over any number of
      connections, polled at any moments and cut at any character. */
  lemma ClientFollowsTheRun(cfg: Config, actions: seq<Action>, run: RunId, json: Event -> string, query: seq<string>,
                            after: nat, visits: seq<Visit>)
    requires visits != [] && Watched(cfg, actions, run, json, query, visits) && PlainText(json)
    requires |RunLog(Reach(Initial(cfg), actions).db.events, run)| < BIGINT_END
    requires SelectedCursor(query, None, |LogAt(cfg, actions, run, json, visits[0].start)|) == At(after)
    ensures var connections := Connections(cfg, actions, run, json, visits);
            var n := |visits| - 1;
            var reader := Stream.AfterSession(connections);
            && Stream.Advanced(after, Stream.AfterSession(connections[..n]), connections[n], reader)
            && Stream.Delivered(LogAt(cfg, actions, run, json, |actions|), after, reader)
  {
    hide Reach, RunLog, Stream.Session, Watched, Stream.AfterSession, Stream.Advanced, Stream.Delivered, SelectedCursor, LogAt,
      PlainText;
    var n := |visits| - 1;
    WatchedDuring(cfg, actions, run, json, query, visits);
    var connections := Connections(cfg, actions, run, json, visits);
    WatchedIsSession(cfg, actions, run, json, query, visits);
    Stream.ExactlyOnce(query, after, connections);
    var reader := Stream.AfterSession(connections);
    Stream.AdvancedDelivers(after, Stream.AfterSession(connections[..n]), connections[n], reader);
    var polls := visits[n].polls;
    LogsNest(cfg, actions, run, json, polls[|polls| - 1], |actions|);
    Stream.DeliveredGrows(connections[n].Log(), LogAt(cfg, actions, run, json, |actions|), after, reader);
  }
  /** A connection polled often enough after the run's ending ends the client's reading: once the log
      held a terminal event at t, and as many polls later as it takes to read up to t, a connection that
      arrives whole leaves the client with everything up to the first terminal event. */
  lemma ClientReachesTheEnd(cfg: Config, actions: seq<Action>, run: RunId, json: Event -> string, query: seq<string>,
                            after: nat, visits: seq<Visit>, k: nat, t: nat)
    requires visits != [] && Watched(cfg, actions, run, json, query, visits) && PlainText(json)
    requires |RunLog(Reach(Initial(cfg), actions).db.events, run)| < BIGINT_END
    requires SelectedCursor(query, None, |LogAt(cfg, actions, run, json, visits[0].start)|) == At(after)
    requires var polls := visits[|visits| - 1].polls;
             var connections := Connections(cfg, actions, run, json, visits);
             var had := |Stream.AfterSession(connections[..|visits| - 1]).messages|;
             && connections[|visits| - 1].ArrivedWhole()
             && k < |polls| && after <= t < |LogAt(cfg, actions, run, json, polls[k])|
             && LogAt(cfg, actions, run, json, polls[k])[t].terminal
             && t < after + had + 100 * (|polls| - k)
    ensures Stream.HoldsToTheEnd(LogAt(cfg, actions, run, json, |actions|), after,
                                 Stream.AfterSession(Connections(cfg, actions, run, json, visits)))
  {
    hide Reach, RunLog, Stream.AfterSession, Stream.Advanced, Stream.HoldsToTheEnd, Stream.Delivered, SelectedCursor, LogAt,
      PlainText, Sse.EncodeAll, Watched;
    WatchedDuring(cfg, actions, run, json, query, visits);
    ClientFollowsTheRun(cfg, actions, run, json, query, after, visits);
    var n := |visits| - 1;
    var connections := Connections(cfg, actions, run, json, visits);
    var reader, polls := Stream.AfterSession(connections), visits[n].polls;
    PollsSeeGrowingLog(cfg, actions, run, json, polls);
    Stream.AdvancedEnds(after, Stream.AfterSession(connections[..n]), connections[n], reader, k, t);
    LogsNest(cfg, actions, run, json, polls[|polls| - 1], |actions|);
    Stream.EndGrows(connections[n].Log(), LogAt(cfg, actions, run, json, |actions|), after, reader);
  }
}
