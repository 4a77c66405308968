// committed_event_stream over a log that grows while it is read, and a client that reconnects.
module Stream {
  import opened EventTypes
  import opened Digits
  import opened Cursors
  import opened Sse

  const READ_LIMIT: nat := 100

  /** A run's committed events in seq order, as read_events finds them. */
  ghost predicate Dense(log: seq<Envelope>) {
    forall i :: 0 <= i < |log| ==> log[i].seqNo == i + 1
  }

  /** What each poll of one connection saw: the same log, longer each time. */
  ghost predicate Growing(polls: seq<seq<Envelope>>) {
    && (forall k :: 0 <= k < |polls| ==> Dense(polls[k]))
    && (forall j, k :: 0 <= j <= k < |polls| ==> polls[j] <= polls[k])
  }

  /** WHERE seq > after ORDER BY seq LIMIT limit. */
  function ReadEvents(log: seq<Envelope>, after: nat, limit: nat): seq<Envelope> {
    if after >= |log| then [] else log[after..if after + limit < |log| then after + limit else |log|]
  }

  /** ReadEvents is the query: the events past the cursor, in order, as many as the limit allows. */
  lemma ReadIsQuery(log: seq<Envelope>, after: nat, limit: nat)
    requires Dense(log)
    ensures var page := ReadEvents(log, after, limit);
            && (forall e :: e in page ==> e in log && e.seqNo > after)
            && (forall i :: 0 <= i < |page| ==> page[i].seqNo == after + i + 1)
            && (|page| < limit ==> forall e :: e in log && e.seqNo > after ==> e in page)
  {
    var page := ReadEvents(log, after, limit);
    if |page| < limit {
      forall e | e in log && e.seqNo > after ensures e in page {
        var i :| 0 <= i < |log| && log[i] == e;
        assert page[i - after] == e;
      }
    }
  }

  /** sent is a gapless, repeat-free run of the log from just after the cursor, and only its last
      event may be terminal. */
  ghost predicate Contiguous(log: seq<Envelope>, after: nat, sent: seq<Envelope>) {
    && after + |sent| <= |log| && sent == log[after..after + |sent|]
    && forall i :: 0 <= i < |sent| - 1 ==> !sent[i].terminal
  }

  predicate Closed(sent: seq<Envelope>) {
    sent != [] && sent[|sent| - 1].terminal
  }

  /** Where the cursor is after the polls of a stream that has met no terminal event. */
  function Reached(polls: seq<seq<Envelope>>, after: nat): nat {
    if polls == [] then after
    else
      var before := Reached(polls[..|polls| - 1], after);
      var available := |polls[|polls| - 1]|;
      if before >= available then before else if before + READ_LIMIT < available then before + READ_LIMIT else available
  }

  /** What the generator yields over these polls: everything up to the first terminal event or to
      where its cursor gets, whichever comes first. */
  ghost predicate Streamed(polls: seq<seq<Envelope>>, after: nat, sent: seq<Envelope>)
    requires polls != []
  {
    && Contiguous(polls[|polls| - 1], after, sent)
    && after + |sent| <= Reached(polls, after)
    && (Closed(sent) || after + |sent| == Reached(polls, after))
  }

  /** Streamed leaves no choice. */
  lemma StreamedIsUnique(polls: seq<seq<Envelope>>, after: nat, sent: seq<Envelope>, other: seq<Envelope>)
    requires polls != [] && Streamed(polls, after, sent) && Streamed(polls, after, other)
    ensures sent == other
  {
    NotShorter(polls, after, sent, other);
    NotShorter(polls, after, other, sent);
  }

  lemma NotShorter(polls: seq<seq<Envelope>>, after: nat, sent: seq<Envelope>, other: seq<Envelope>)
    requires polls != [] && Streamed(polls, after, sent) && Streamed(polls, after, other)
    ensures |sent| >= |other|
  {
    assert 0 < |sent| < |other| ==> other[|sent| - 1] == sent[|sent| - 1];
  }

  lemma {:induction false} ReachedGrows(polls: seq<seq<Envelope>>, after: nat, k: nat)
    requires k <= |polls|
    ensures after <= Reached(polls[..k], after) <= Reached(polls, after)
    decreases |polls|
  {
    if k == |polls| {
      assert polls[..k] == polls;
      if polls != [] {
        ReachedGrows(polls[..k - 1], after, k - 1);
      }
    } else {
      var n := |polls| - 1;
      ReachedGrows(polls[..n], after, k);
      assert polls[..n][..k] == polls[..k];
    }
  }

  /** Polling catches up: from any poll on, the cursor reaches what was committed by then, or moves by
      a hundred events at each poll. */
  lemma {:induction false} PollsCatchUp(polls: seq<seq<Envelope>>, after: nat, k: nat)
    requires k < |polls| && Growing(polls)
    ensures Reached(polls, after) >= |polls[k]| || Reached(polls, after) >= after + 100 * (|polls| - k)
  {
    var n := |polls| - 1;
    var before := polls[..n];
    ReachedGrows(polls, after, n);
    if k < n {
      PollsCatchUp(before, after, k);
      assert polls[k] <= polls[n];
    }
  }

  /** So a stream polled often enough after an ending closes: once an event at t is terminal, as many
      polls as it takes to read up to t. */
  lemma EndingCloses(polls: seq<seq<Envelope>>, after: nat, sent: seq<Envelope>, k: nat, t: nat)
    requires k < |polls| && Growing(polls) && Streamed(polls, after, sent)
    requires after <= t < |polls[k]| && polls[k][t].terminal && t < after + 100 * (|polls| - k)
    ensures Closed(sent)
  {
    hide Reached;
    PollsCatchUp(polls, after, k);
    assert polls[k] <= polls[|polls| - 1];
    assert t - after < |sent| ==> sent[t - after].terminal;
  }

  lemma ContiguousSnoc(log: seq<Envelope>, after: nat, sent: seq<Envelope>, e: Envelope)
    requires Contiguous(log, after, sent) && !Closed(sent) && after + |sent| < |log| && e == log[after + |sent|]
    ensures Contiguous(log, after, sent + [e]) && (Closed(sent + [e]) <==> e.terminal)
  {
  }

  lemma PageFollows(polls: seq<seq<Envelope>>, k: nat, cursor: nat)
    requires Growing(polls) && k < |polls| && cursor <= |polls[k]|
    ensures var page := ReadEvents(polls[k], cursor, READ_LIMIT);
            var last := polls[|polls| - 1];
            && cursor + |page| <= |polls[k]| <= |last|
            && (forall i :: 0 <= i < |page| ==> page[i] == last[cursor + i] && page[i].seqNo == cursor + i + 1)
            && cursor + |page| == (if cursor + READ_LIMIT < |polls[k]| then cursor + READ_LIMIT else |polls[k]|)
            && (k + 1 < |polls| ==> cursor + |page| <= |polls[k + 1]|)
  {
    assert polls[k] <= polls[|polls| - 1];
    assert k + 1 < |polls| ==> polls[k] <= polls[k + 1];
  }

  /** The generator: it polls, yields what it read, moves its cursor, and returns at a terminal
      event. polls are the logs its reads saw; it is abandoned after the last. */
  method CommittedEventStream(polls: seq<seq<Envelope>>, after: nat) returns (sent: seq<Envelope>, closed: bool)
    requires polls != [] && Growing(polls) && after <= |polls[0]|
    ensures Streamed(polls, after, sent)
    ensures closed <==> Closed(sent)
  {
    hide ReadEvents, Dense, Reached, Streamed, Growing, Contiguous, Closed;
    ghost var last := polls[|polls| - 1];
    NothingSent(polls, after);
    var cursor := after;
    sent, closed := [], false;
    for k := 0 to |polls|
      invariant Contiguous(last, after, sent) && cursor == after + |sent| && !Closed(sent) && !closed
      invariant cursor == Reached(polls[..k], after)
      invariant k < |polls| ==> cursor <= |polls[k]|
    {
      ReachedStep(polls, after, k);
      PageFollows(polls, k, cursor);
      var page := ReadEvents(polls[k], cursor, READ_LIMIT);
      ghost var start := cursor;
      for i := 0 to |page|
        invariant Contiguous(last, after, sent) && cursor == after + |sent| == start + i && !Closed(sent) && !closed
      {
        ContiguousSnoc(last, after, sent, page[i]);
        cursor := page[i].seqNo;
        sent := sent + [page[i]];
        if page[i].terminal {
          closed := true;
          StreamedIs(polls, after, sent);
          return;
        }
      }
    }
    assert polls[..|polls|] == polls;
    StreamedIs(polls, after, sent);
  }

  lemma NothingSent(polls: seq<seq<Envelope>>, after: nat)
    requires polls != [] && Growing(polls) && after <= |polls[0]|
    ensures Contiguous(polls[|polls| - 1], after, []) && !Closed([]) && Reached(polls[..0], after) == after
  {
    assert polls[0] <= polls[|polls| - 1];
  }

  lemma ReachedStep(polls: seq<seq<Envelope>>, after: nat, k: nat)
    requires k < |polls|
    ensures var before := Reached(polls[..k], after);
            Reached(polls[..k + 1], after)
            == if before >= |polls[k]| then before else if before + READ_LIMIT < |polls[k]| then before + READ_LIMIT else |polls[k]|
    ensures Reached(polls[..k + 1], after) <= Reached(polls, after)
  {
    assert polls[..k + 1][..k] == polls[..k];
    ReachedGrows(polls, after, k + 1);
  }

  lemma StreamedIs(polls: seq<seq<Envelope>>, after: nat, sent: seq<Envelope>)
    requires polls != [] && Contiguous(polls[|polls| - 1], after, sent) && after + |sent| <= Reached(polls, after)
    requires Closed(sent) || after + |sent| == Reached(polls, after)
    ensures Streamed(polls, after, sent)
  {
  }

  // ----- a client that reconnects -------------------------------------------------------

  /** One connection: the log when the cursor was chosen, the logs its polls saw, what the server
      wrote, and after how many characters it was cut. */
  datatype Connection = Connection(start: seq<Envelope>, polls: seq<seq<Envelope>>, sent: seq<Envelope>, arrived: nat) {
    /** The log at the last poll. */
    function Log(): seq<Envelope> {
      if polls == [] then start else polls[|polls| - 1]
    }

    predicate ArrivedWhole() {
      arrived >= |EncodeAll(sent)|
    }

    /** How much of what was written came through. */
    function Through(): (k: nat)
      ensures k <= |EncodeAll(sent)|
    {
      if ArrivedWhole() then |EncodeAll(sent)| else arrived
    }
  }

  datatype Reader = Reader(lastId: string, messages: seq<Message>)

  /** EventSource sends the header only when its last id is not empty. */
  function Header(lastId: string): Option<string> {
    if lastId == "" then None else Some(lastId)
  }

  ghost predicate Served(query: seq<string>, reader: Reader, c: Connection) {
    && c.polls != [] && Growing([c.start] + c.polls) && AllPlain(c.Log()) && |c.Log()| < BIGINT_END
    && (match SelectedCursor(query, Header(reader.lastId), |c.start|)
        case At(cursor) => Streamed(c.polls, cursor, c.sent)
        case _ => c.sent == [])
  }

  /** The reader after a connection that may be cut anywhere. */
  function AfterConnection(reader: Reader, c: Connection): Reader {
    var client := Feed(Connect(reader.lastId, reader.messages), EncodeAll(c.sent)[..c.Through()]);
    Reader(client.lastId, client.messages)
  }

  function AfterSession(connections: seq<Connection>): Reader {
    if connections == [] then Reader("", [])
    else AfterConnection(AfterSession(connections[..|connections| - 1]), connections[|connections| - 1])
  }

  /** A session of one EventSource: the same query every time, over one log that only grows. The
      client stops reconnecting once it has seen a terminal event. */
  ghost predicate Session(query: seq<string>, connections: seq<Connection>) {
    connections == []
    || var n := |connections| - 1;
       var c, before := connections[n], connections[..n];
       && Session(query, before)
       && (before != [] ==> before[n - 1].Log() <= c.start)
       && Served(query, AfterSession(before), c) && StillReading(c.Log(), AfterSession(before))
  }

  ghost predicate StillReading(log: seq<Envelope>, reader: Reader) {
    forall k :: 0 <= k < |reader.messages| ==> !TerminalMessage(log, reader.messages[k])
  }

  ghost predicate TerminalMessage(log: seq<Envelope>, m: Message) {
    exists e :: e in log && e.terminal && m == Message(e.json, Numeral(e.seqNo))
  }

  /** What the reader holds is exactly the events after, after + 1, ... of the log, each once. */
  ghost predicate Delivered(log: seq<Envelope>, after: nat, reader: Reader) {
    && after + |reader.messages| <= |log|
    && reader.messages == MessagesOf(log[after..after + |reader.messages|])
    && reader.lastId == (if reader.messages == [] then "" else Numeral(after + |reader.messages|))
  }

  lemma DeliveredGrows(log: seq<Envelope>, longer: seq<Envelope>, after: nat, reader: Reader)
    requires Delivered(log, after, reader) && log <= longer
    ensures Delivered(longer, after, reader)
  {
    assert longer[after..after + |reader.messages|] == log[after..after + |reader.messages|];
  }

  /** Every connection opens right after what the reader has, and adds a whole number of events:
      all that were sent when all of it arrives. */
  lemma ConnectionDelivers(query: seq<string>, after: nat, reader: Reader, c: Connection) returns (whole: nat)
    requires SelectedCursor(query, None, |c.start|) == At(after)
    requires Served(query, reader, c) && Delivered(c.start, after, reader)
    ensures c.polls != [] && Streamed(c.polls, after + |reader.messages|, c.sent) && whole <= |c.sent|
    ensures |AfterConnection(reader, c).messages| == |reader.messages| + whole
    ensures c.ArrivedWhole() ==> whole == |c.sent|
    ensures Delivered(c.Log(), after, AfterConnection(reader, c))
  {
    hide EncodeAll, Feed, SelectedCursor, Delivered, Streamed;
    LogGrows(query, reader, c);
    OpensAfter(query, after, c.start, reader);
    whole := CutStreamReceived(Connect(reader.lastId, reader.messages), c.sent, c.Through());
    DeliveredGrows(c.start, c.Log(), after, reader);
    DeliveredMore(c.Log(), after, reader, c.sent, whole, AfterConnection(reader, c));
  }

  lemma LogGrows(query: seq<string>, reader: Reader, c: Connection)
    requires Served(query, reader, c)
    ensures c.polls != [] && c.start <= c.Log() && |c.Log()| < BIGINT_END && Dense(c.Log()) && AllPlain(c.Log())
    ensures forall cursor :: Streamed(c.polls, cursor, c.sent) ==> Contiguous(c.Log(), cursor, c.sent) && AllPlain(c.sent)
  {
    var logs := [c.start] + c.polls;
    assert logs[0] == c.start && logs[|logs| - 1] == c.Log();
  }

  lemma DeliveredMore(log: seq<Envelope>, after: nat, reader: Reader, sent: seq<Envelope>, whole: nat, reader': Reader)
    requires Delivered(log, after, reader) && Contiguous(log, after + |reader.messages|, sent) && whole <= |sent|
    requires Dense(log)
    requires reader'.messages == reader.messages + MessagesOf(sent[..whole])
    requires reader'.lastId == IdAfter(reader.lastId, sent[..whole])
    ensures Delivered(log, after, reader')
  {
    hide MessagesOf;
    var n := |reader.messages|;
    var had, came := log[after..after + n], log[after + n..after + n + whole];
    assert sent[..whole] == came;
    assert log[after..after + n + whole] == had + came;
    MessagesConcat(had, came);
    if whole == 0 {
      assert came == [] && reader'.messages == reader.messages;
    } else {
      assert came[whole - 1] == log[after + n + whole - 1];
    }
  }

  lemma MessagesConcat(a: seq<Envelope>, b: seq<Envelope>)
    ensures MessagesOf(a + b) == MessagesOf(a) + MessagesOf(b)
  {
  }

  /** Events before a terminal one are all a reader that is still reading has. */
  lemma StillBeforeTerminal(log: seq<Envelope>, after: nat, reader: Reader)
    requires Delivered(log, after, reader) && StillReading(log, reader) && Dense(log)
    ensures forall k :: after <= k < after + |reader.messages| ==> !log[k].terminal
  {
    forall k | after <= k < after + |reader.messages| ensures !log[k].terminal {
      assert reader.messages[k - after] == Message(log[after..after + |reader.messages|][k - after].json, Numeral(log[k].seqNo));
      assert log[k] in log;
    }
  }

  /** What one connection did for a reader that had the events after + 1 to after + n: it has more of
      them, only the last can be terminal, and if the connection arrived whole the last is terminal
      exactly when the generator closed, or else the reader is where the polls got. */
  ghost predicate Advanced(after: nat, before: Reader, c: Connection, reader: Reader) {
    var n, last := after + |before.messages|, after + |reader.messages|;
    && c.polls != [] && Delivered(c.Log(), after, reader)
    && (forall k :: after <= k < last - 1 ==> !c.Log()[k].terminal)
    && Streamed(c.polls, n, c.sent) && n <= last <= n + |c.sent|
    && (c.ArrivedWhole() ==> if Closed(c.sent) then last > n && c.Log()[last - 1].terminal else last == Reached(c.polls, n))
  }

  /** The reader has everything up to the log's first terminal event after `after`. */
  ghost predicate HoldsToTheEnd(log: seq<Envelope>, after: nat, reader: Reader) {
    var last := after + |reader.messages|;
    && Delivered(log, after, reader) && after < last && log[last - 1].terminal
    && forall i :: after <= i < last - 1 ==> !log[i].terminal
  }

  /** A connection that arrives whole, and polled often enough after a terminal event at t, ends the
      reading. */
  lemma AdvancedEnds(after: nat, before: Reader, c: Connection, reader: Reader, k: nat, t: nat)
    requires Advanced(after, before, c, reader) && c.ArrivedWhole() && Growing(c.polls)
    requires k < |c.polls| && after <= t < |c.polls[k]| && c.polls[k][t].terminal
    requires t < after + |before.messages| + 100 * (|c.polls| - k)
    ensures HoldsToTheEnd(c.Log(), after, reader)
  {
    hide Streamed, Reached, Contiguous, Closed, EncodeAll;
    ReaderWithin(c.Log(), after, reader);
    assert c.polls[k] <= c.Log();
    if t >= after + |before.messages| {
      EndingCloses(c.polls, after + |before.messages|, c.sent, k, t);
    }
  }

  lemma EndGrows(log: seq<Envelope>, longer: seq<Envelope>, after: nat, reader: Reader)
    requires HoldsToTheEnd(log, after, reader) && log <= longer
    ensures HoldsToTheEnd(longer, after, reader)
  {
    DeliveredGrows(log, longer, after, reader);
  }

  /** Exactly once: over any number of connections, cut at any character, with the query's `after`
      gone stale, the client has received the events after + 1, after + 2, ... of the committed log,
      each once and in order; only the last can be terminal; and the next connection opens right
      after it. A connection that arrives whole brings all the generator yielded: the client then
      holds everything up to the run's first terminal event, or up to where the polls got. */
  lemma {:induction false} ExactlyOnce(query: seq<string>, after: nat, connections: seq<Connection>)
    requires connections != [] && Session(query, connections)
    requires SelectedCursor(query, None, |connections[0].start|) == At(after)
    ensures var n := |connections| - 1;
            var c, reader := connections[n], AfterSession(connections);
            && Advanced(after, AfterSession(connections[..n]), c, reader)
            && SelectedCursor(query, Header(reader.lastId), |c.Log()|) == At(after + |reader.messages|)
  {
    hide Served, AfterConnection, StillReading, SelectedCursor, Delivered, Advanced;
    var n := |connections| - 1;
    var c, before := connections[n], connections[..n];
    var reader := AfterSession(before);
    LogsGrow(query, connections);
    if n == 0 {
      FirstDelivered(query, after, c.start);
    } else {
      ExactlyOnce(query, after, before);
      AdvancedDelivers(after, AfterSession(before[..n - 1]), before[n - 1], reader);
      DeliveredGrows(before[n - 1].Log(), c.start, after, reader);
      SelectedLater(query, after, |connections[0].start|, |c.start|);
    }
    LogGrows(query, reader, c);
    SelectedLater(query, after, |c.start|, |c.Log()|);
    LastMayEnd(query, after, reader, c);
    AdvancedDelivers(after, reader, c, AfterSession(connections));
    OpensAfter(query, after, c.Log(), AfterSession(connections));
  }

  lemma AdvancedDelivers(after: nat, before: Reader, c: Connection, reader: Reader)
    requires Advanced(after, before, c, reader)
    ensures Delivered(c.Log(), after, reader)
  {
  }

  lemma FirstDelivered(query: seq<string>, after: nat, log: seq<Envelope>)
    requires SelectedCursor(query, None, |log|) == At(after)
    ensures Delivered(log, after, Reader("", []))
  {
    assert log[after..after] == [];
  }

  /** A position once opened at is opened at again: the log has only grown. */
  lemma SelectedLater(query: seq<string>, after: nat, highest: nat, later: nat)
    requires SelectedCursor(query, None, highest) == At(after) && highest <= later
    ensures SelectedCursor(query, None, later) == At(after) && after <= highest
    ensures forall i :: 0 <= i < |query| ==> AllDigits(query[i])
  {
  }

  lemma {:induction false} LogsGrow(query: seq<string>, connections: seq<Connection>)
    requires connections != [] && Session(query, connections)
    ensures |connections[0].start| <= |connections[|connections| - 1].start|
  {
    hide Served, AfterSession, StillReading;
    var n := |connections| - 1;
    var before := connections[..n];
    if n > 0 {
      LogsGrow(query, before);
      assert Session(query, before);
      LogGrows(query, AfterSession(before[..n - 1]), before[n - 1]);
    }
  }

  /** What an EventSource's plain first request opens at, and what the last `after` of a query asks for. */
  lemma FirstOpens(after: nat, stale: seq<string>, highest: nat)
    requires after <= highest < BIGINT_END && forall i :: 0 <= i < |stale| ==> AllDigits(stale[i])
    ensures SelectedCursor([], None, highest) == At(0)
    ensures SelectedCursor(stale + [Numeral(after)], None, highest) == At(after)
  {
    ValueOfNumeral(after);
    ShortNumeral(after);
    assert "0"[..0] == "" && Value("0") == 0;
  }

  lemma OpensAfter(query: seq<string>, after: nat, log: seq<Envelope>, reader: Reader)
    requires SelectedCursor(query, None, |log|) == At(after)
    requires Delivered(log, after, reader) && |log| < BIGINT_END
    ensures SelectedCursor(query, Header(reader.lastId), |log|) == At(after + |reader.messages|)
  {
    hide SelectedCursor, MessagesOf, Numeral, Dense;
    if reader.messages != [] {
      var last := after + |reader.messages|;
      assert Header(Numeral(last)) == Some(Numeral(last));
      SelectedLater(query, after, |log|, |log|);
      OwnCursorAccepted(query, last, |log|);
    }
  }

  lemma LastMayEnd(query: seq<string>, after: nat, reader: Reader, c: Connection)
    requires SelectedCursor(query, None, |c.start|) == At(after)
    requires Served(query, reader, c) && Delivered(c.start, after, reader) && StillReading(c.Log(), reader)
    ensures Advanced(after, reader, c, AfterConnection(reader, c))
  {
    hide AfterConnection, SelectedCursor, EncodeAll, Reached, Delivered, Contiguous, Closed, StillReading, Growing, Dense;
    var whole := ConnectionDelivers(query, after, reader, c);
    LogGrows(query, reader, c);
    DeliveredGrows(c.start, c.Log(), after, reader);
    StillBeforeTerminal(c.Log(), after, reader);
    ReaderWithin(c.Log(), after, reader);
    NoEarlierEnding(c.Log(), after, |reader.messages|, c.sent, whole);
    ReaderWithin(c.Log(), after, AfterConnection(reader, c));
  }

  lemma ReaderWithin(log: seq<Envelope>, after: nat, reader: Reader)
    requires Delivered(log, after, reader)
    ensures after + |reader.messages| <= |log|
  {
  }

  lemma NoEarlierEnding(log: seq<Envelope>, after: nat, n: nat, sent: seq<Envelope>, whole: nat)
    requires Contiguous(log, after + n, sent) && whole <= |sent|
    requires forall k :: after <= k < after + n ==> !log[k].terminal
    ensures forall k :: after <= k < after + n + whole - 1 ==> !log[k].terminal
    ensures whole == |sent| && Closed(sent) ==> whole > 0 && log[after + n + whole - 1].terminal
  {
    assert forall k :: after + n <= k < after + n + |sent| ==> log[k] == sent[k - after - n];
  }
}
