// The frames the stream writes and the client that reads them: encode_sse_event, and the
// event-stream interpretation of section 9.2 of the WHATWG HTML standard.
module Sse {
  import opened Digits

  datatype Envelope = Envelope(seqNo: nat, json: string, terminal: bool)

  predicate Plain(s: string) {
    forall i :: 0 <= i < |s| ==> s[i] != '\n' && s[i] != '\r'
  }

  function EncodeEvent(e: Envelope): string {
    "id: " + Numeral(e.seqNo) + "\n" + "data: " + e.json + "\n" + "\n"
  }

  /** What reaches onmessage: the data and the event's last id. */
  datatype Message = Message(data: string, lastId: string)

  /** A client between characters: the unfinished line, whether a CR just ended one, the buffers of
      the unfinished event, the id it would reconnect with, and what it has dispatched. */
  datatype Client = Client(line: string, afterCr: bool, idBuffer: string, dataBuffer: string, typeBuffer: string,
                           lastId: string, messages: seq<Message>)

  /** A connection begins with every buffer empty; only the id last dispatched is carried over. */
  function Connect(lastId: string, messages: seq<Message>): Client {
    Client("", false, "", "", "", lastId, messages)
  }

  /** Dispatch at a blank line. Named types never reach onmessage. */
  function Dispatch(c: Client): Client {
    var d := c.(lastId := c.idBuffer, dataBuffer := "", typeBuffer := "");
    if c.dataBuffer == "" then d
    else if c.typeBuffer != "" && c.typeBuffer != "message" then d
    else
      var data := if c.dataBuffer[|c.dataBuffer| - 1] == '\n' then c.dataBuffer[..|c.dataBuffer| - 1] else c.dataBuffer;
      d.(messages := d.messages + [Message(data, c.idBuffer)])
  }

  function Field(c: Client, name: string, value: string): Client {
    if name == "event" then c.(typeBuffer := value)
    else if name == "data" then c.(dataBuffer := c.dataBuffer + value + "\n")
    else if name == "id" then (if '\0' in value then c else c.(idBuffer := value))
    else c
  }

  /** The position of the first colon, or the length. */
  function Colon(line: string, from: nat): (k: nat)
    requires from <= |line|
    ensures from <= k <= |line|
    ensures forall i :: from <= i < k ==> line[i] != ':'
    ensures k < |line| ==> line[k] == ':'
    decreases |line| - from
  {
    if from == |line| || line[from] == ':' then from else Colon(line, from + 1)
  }

  function Line(c: Client): Client {
    var line := c.line;
    var d := c.(line := "");
    if line == "" then Dispatch(d)
    else
      var k := Colon(line, 0);
      if k == 0 then d
      else if k == |line| then Field(d, line, "")
      else
        var value := line[k + 1..];
        Field(d, line[..k], if value != "" && value[0] == ' ' then value[1..] else value)
  }

  /** Lines end at LF, CR or CRLF. */
  function Char(c: Client, ch: char): Client {
    if ch == '\n' && c.afterCr then c.(afterCr := false)
    else if ch == '\n' then Line(c)
    else if ch == '\r' then Line(c).(afterCr := true)
    else c.(line := c.line + [ch], afterCr := false)
  }

  function Feed(c: Client, text: string): Client {
    if text == "" then c else Char(Feed(c, text[..|text| - 1]), text[|text| - 1])
  }

  // ----- feeding ------------------------------------------------------------------------

  lemma {:induction false} FeedConcat(c: Client, a: string, b: string)
    ensures Feed(c, a + b) == Feed(Feed(c, a), b)
  {
    if b == "" {
      assert a + b == a;
    } else {
      FeedConcat(c, a, b[..|b| - 1]);
      assert (a + b)[..|a + b| - 1] == a + b[..|b| - 1];
    }
  }

  lemma {:induction false} FeedPlain(c: Client, text: string)
    requires Plain(text) && !c.afterCr
    ensures Feed(c, text) == c.(line := c.line + text)
  {
    if text == "" {
      assert c.line + text == c.line;
    } else {
      FeedPlain(c, text[..|text| - 1]);
      assert c.line + text[..|text| - 1] + [text[|text| - 1]] == c.line + text;
    }
  }

  /** A whole line: a field of the unfinished event, or the blank line that ends it. */
  lemma FeedLine(c: Client, text: string)
    requires Plain(text) && !c.afterCr && c.line == ""
    ensures Feed(c, text + "\n") == Line(c.(line := text))
  {
    FeedConcat(c, text, "\n");
    FeedPlain(c, text);
    assert "" + text == text;
    assert Feed(Feed(c, text), "\n") == Char(Feed(Feed(c, text), ""), '\n');
  }

  lemma ColonAt(name: string, value: string)
    requires forall i :: 0 <= i < |name| ==> name[i] != ':'
    ensures Colon(name + ": " + value, 0) == |name|
  {
    var line := name + ": " + value;
    assert line[|name|] == ':';
    assert forall i :: 0 <= i < |name| ==> line[i] == name[i];
  }

  lemma FieldLine(c: Client, name: string, value: string)
    requires name != "" && forall i :: 0 <= i < |name| ==> name[i] != ':'
    requires c.line == name + ": " + value
    ensures Line(c) == Field(c.(line := ""), name, value)
  {
    ColonAt(name, value);
    assert c.line[..|name|] == name && c.line[|name| + 1..] == " " + value && (" " + value)[1..] == value;
  }

  predicate Between(c: Client) {
    c.line == "" && !c.afterCr && c.dataBuffer == "" && c.typeBuffer == ""
  }

  function IdLine(e: Envelope): string {
    "id: " + Numeral(e.seqNo)
  }

  function DataLine(e: Envelope): string {
    "data: " + e.json
  }

  function AfterId(c: Client, e: Envelope): Client {
    c.(idBuffer := Numeral(e.seqNo))
  }

  lemma IdLineFed(c: Client, e: Envelope)
    requires Between(c)
    ensures Plain(IdLine(e)) && Feed(c, IdLine(e) + "\n") == AfterId(c, e)
  {
    assert AllDigits(Numeral(e.seqNo));
    assert "id: " + Numeral(e.seqNo) == "id" + ": " + Numeral(e.seqNo);
    FeedLine(c, IdLine(e));
    FieldLine(c.(line := IdLine(e)), "id", Numeral(e.seqNo));
  }

  function AfterData(c: Client, e: Envelope): Client {
    AfterId(c, e).(dataBuffer := e.json + "\n")
  }

  lemma DataLineFed(c: Client, e: Envelope)
    requires Between(c) && Plain(e.json)
    ensures Plain(DataLine(e)) && Feed(AfterId(c, e), DataLine(e) + "\n") == AfterData(c, e)
  {
    assert "data: " + e.json == "data" + ": " + e.json;
    FeedLine(AfterId(c, e), DataLine(e));
    FieldLine(AfterId(c, e).(line := DataLine(e)), "data", e.json);
    assert "" + e.json + "\n" == e.json + "\n";
  }

  function Received(c: Client, e: Envelope): Client {
    c.(idBuffer := Numeral(e.seqNo), lastId := Numeral(e.seqNo),
       messages := c.messages + [Message(e.json, Numeral(e.seqNo))])
  }

  /** Round trip of one frame: the client dispatches exactly the event, under its printed seq. */
  lemma FrameReceived(c: Client, e: Envelope)
    requires Between(c) && Plain(e.json)
    ensures Feed(c, EncodeEvent(e)) == Received(c, e) && Between(Received(c, e))
  {
    hide Feed;
    var first, second := IdLine(e) + "\n", DataLine(e) + "\n";
    assert EncodeEvent(e) == first + second + "\n";
    FeedConcat(c, first + second, "\n");
    FeedConcat(c, first, second);
    IdLineFed(c, e);
    DataLineFed(c, e);
    FeedLine(AfterData(c, e), "");
    assert "" + "\n" == "\n";
    assert (e.json + "\n")[..|e.json|] == e.json;
  }

  lemma FeedOne(c: Client, ch: char)
    ensures Feed(c, [ch]) == Char(c, ch)
  {
    assert [ch][..0] == "" && Feed(c, "") == c;
  }

  /** LF, CR and CRLF end a line alike. */
  lemma LineEndings(c: Client, text: string)
    requires Plain(text) && !c.afterCr && c.line == ""
    ensures var d := Line(c.(line := text));
            Feed(c, text + "\n") == d && Feed(c, text + "\r") == d.(afterCr := true) && Feed(c, text + "\r" + "\n") == d
  {
    hide Feed, Line;
    FeedLine(c, text);
    FeedConcat(c, text, "\r");
    FeedPlain(c, text);
    assert "" + text == text;
    FeedOne(c.(line := text), '\r');
    FeedConcat(c, text + "\r", "\n");
    FeedOne(Feed(c, text + "\r"), '\n');
    LineKeepsCr(c.(line := text));
  }

  lemma LineKeepsCr(c: Client)
    ensures Line(c).afterCr == c.afterCr
  {
  }

  lemma TypeLineFed(c: Client, name: string)
    requires Between(c) && Plain(name)
    ensures Feed(c, "event: " + name + "\n") == c.(typeBuffer := name)
  {
    hide Feed;
    assert "event: " + name == "event" + ": " + name;
    FeedLine(c, "event: " + name);
    FieldLine(c.(line := "event: " + name), "event", name);
  }

  lemma TypedId(c: Client, e: Envelope)
    requires c.line == "" && !c.afterCr
    ensures Feed(c, IdLine(e) + "\n") == c.(idBuffer := Numeral(e.seqNo))
  {
    assert AllDigits(Numeral(e.seqNo));
    hide Numeral, Feed;
    assert "id: " + Numeral(e.seqNo) == "id" + ": " + Numeral(e.seqNo);
    FeedLine(c, IdLine(e));
    FieldLine(c.(line := IdLine(e)), "id", Numeral(e.seqNo));
  }

  lemma TypedData(c: Client, e: Envelope)
    requires c.line == "" && !c.afterCr && Plain(e.json)
    ensures Feed(c, DataLine(e) + "\n") == c.(dataBuffer := c.dataBuffer + e.json + "\n")
  {
    hide Feed;
    assert "data: " + e.json == "data" + ": " + e.json;
    FeedLine(c, DataLine(e));
    FieldLine(c.(line := DataLine(e)), "data", e.json);
  }

  lemma BlankFed(c: Client)
    requires c.line == "" && !c.afterCr
    ensures Feed(c, "\n") == Dispatch(c)
  {
    assert c.(line := "") == c;
    FeedOne(c, '\n');
  }

  /** Why frames carry no event type: a frame under any type of its own dispatches no message, although
      it still moves the id a client reconnects with. */
  lemma TypedFrameUnheard(c: Client, name: string, e: Envelope)
    requires Between(c) && Plain(e.json) && Plain(name) && name != "" && name != "message"
    ensures var d := Feed(c, "event: " + name + "\n" + EncodeEvent(e));
            d.messages == c.messages && d.lastId == Numeral(e.seqNo) && Between(d)
  {
    hide Numeral, Feed;
    var first, second := IdLine(e) + "\n", DataLine(e) + "\n";
    assert EncodeEvent(e) == first + second + "\n";
    FeedConcat(c, "event: " + name + "\n", EncodeEvent(e));
    TypeLineFed(c, name);
    var typed := c.(typeBuffer := name);
    FeedConcat(typed, first + second, "\n");
    FeedConcat(typed, first, second);
    TypedId(typed, e);
    TypedData(typed.(idBuffer := Numeral(e.seqNo)), e);
    BlankFed(typed.(idBuffer := Numeral(e.seqNo), dataBuffer := typed.dataBuffer + e.json + "\n"));
  }

  lemma CutInId(c: Client, e: Envelope, k: nat)
    requires Between(c) && k <= |IdLine(e)|
    ensures Feed(c, IdLine(e)[..k]) == c.(line := IdLine(e)[..k])
  {
    IdLineFed(c, e);
    FeedPlain(c, IdLine(e)[..k]);
    assert "" + IdLine(e)[..k] == IdLine(e)[..k];
  }

  lemma CutInData(c: Client, e: Envelope, k: nat)
    requires Between(c) && Plain(e.json) && k <= |DataLine(e)|
    ensures var d := Feed(c, IdLine(e) + "\n" + DataLine(e)[..k]); d.messages == c.messages && d.lastId == c.lastId
  {
    var first := IdLine(e) + "\n";
    IdLineFed(c, e);
    DataLineFed(c, e);
    FeedConcat(c, first, DataLine(e)[..k]);
    FeedPlain(AfterId(c, e), DataLine(e)[..k]);
  }

  lemma CutBeforeBlank(c: Client, e: Envelope)
    requires Between(c) && Plain(e.json)
    ensures Feed(c, IdLine(e) + "\n" + (DataLine(e) + "\n")) == AfterData(c, e)
  {
    IdLineFed(c, e);
    DataLineFed(c, e);
    FeedConcat(c, IdLine(e) + "\n", DataLine(e) + "\n");
  }

  /** A frame cut anywhere before its end dispatches nothing and leaves the reconnection id alone. */
  lemma CutFrameIgnored(c: Client, e: Envelope, k: nat)
    requires Between(c) && Plain(e.json) && k < |EncodeEvent(e)|
    ensures var d := Feed(c, EncodeEvent(e)[..k]); d.messages == c.messages && d.lastId == c.lastId
  {
    var first, second := IdLine(e) + "\n", DataLine(e) + "\n";
    var cut := EncodeEvent(e)[..k];
    assert EncodeEvent(e) == first + second + "\n";
    hide Feed, EncodeEvent, IdLine, DataLine;
    if k < |first| {
      assert cut == IdLine(e)[..k];
      CutInId(c, e, k);
    } else if k < |first| + |second| {
      assert cut == first + DataLine(e)[..k - |first|];
      CutInData(c, e, k - |first|);
    } else {
      assert cut == first + second;
      CutBeforeBlank(c, e);
    }
  }

  // ----- a stream of frames -------------------------------------------------------------

  function EncodeAll(events: seq<Envelope>): string {
    if events == [] then "" else EncodeAll(events[..|events| - 1]) + EncodeEvent(events[|events| - 1])
  }

  predicate AllPlain(events: seq<Envelope>) {
    forall i :: 0 <= i < |events| ==> Plain(events[i].json)
  }

  function MessagesOf(events: seq<Envelope>): (messages: seq<Message>)
    ensures |messages| == |events|
    ensures forall i :: 0 <= i < |events| ==> messages[i] == Message(events[i].json, Numeral(events[i].seqNo))
  {
    seq(|events|, i requires 0 <= i < |events| => Message(events[i].json, Numeral(events[i].seqNo)))
  }

  function IdAfter(lastId: string, events: seq<Envelope>): string {
    if events == [] then lastId else Numeral(events[|events| - 1].seqNo)
  }

  lemma {:induction false} FramesReceived(c: Client, events: seq<Envelope>)
    requires Between(c) && AllPlain(events)
    ensures var d := Feed(c, EncodeAll(events));
            Between(d) && d.messages == c.messages + MessagesOf(events)
            && d.lastId == IdAfter(c.lastId, events)
  {
    if events == [] {
      assert c.messages + MessagesOf(events) == c.messages;
    } else {
      hide Feed, EncodeEvent;
      var n := |events| - 1;
      FramesReceived(c, events[..n]);
      FeedConcat(c, EncodeAll(events[..n]), EncodeEvent(events[n]));
      FrameReceived(Feed(c, EncodeAll(events[..n])), events[n]);
      assert MessagesOf(events) == MessagesOf(events[..n]) + [MessagesOf(events)[n]];
    }
  }

  /** However many characters of a stream arrive, the client has dispatched exactly the events whose
      frames arrived whole, and would reconnect with the last of their ids. */
  lemma {:induction false} CutStreamReceived(c: Client, events: seq<Envelope>, k: nat) returns (whole: nat)
    requires Between(c) && AllPlain(events) && k <= |EncodeAll(events)|
    ensures whole <= |events|
    ensures var d := Feed(c, EncodeAll(events)[..k]);
            d.messages == c.messages + MessagesOf(events[..whole]) && d.lastId == IdAfter(c.lastId, events[..whole])
    ensures k == |EncodeAll(events)| ==> whole == |events|
  {
    if k == |EncodeAll(events)| {
      FramesReceived(c, events);
      whole := |events|;
      assert events[..whole] == events && EncodeAll(events)[..k] == EncodeAll(events);
    } else {
      var n := |events| - 1;
      var before := EncodeAll(events[..n]);
      if k <= |before| {
        whole := CutStreamReceived(c, events[..n], k);
        assert EncodeAll(events)[..k] == before[..k] && events[..n][..whole] == events[..whole];
      } else {
        whole := n;
        var cut := EncodeEvent(events[n])[..k - |before|];
        assert EncodeAll(events)[..k] == before + cut;
        FramesReceived(c, events[..n]);
        FeedConcat(c, before, cut);
        CutFrameIgnored(Feed(c, before), events[n], k - |before|);
      }
    }
  }
}
