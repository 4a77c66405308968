// The Inline XBRL reader: a machine over tag and text tokens, and the selection of one fact from
// what it collected.
module Filing {
  import opened EventTypes
  import opened Artifacts

  const TARGET_CONCEPT: string := "us-gaap:RevenueFromContractWithCustomerExcludingAssessedTax"

  // ----- text ---------------------------------------------------------------------------

  /** What str.strip() removes. */
  predicate IsSpace(c: char) {
    var n := c as int;
    || 0x09 <= n <= 0x0d || 0x1c <= n <= 0x20 || n == 0x85 || n == 0xa0 || n == 0x1680
    || 0x2000 <= n <= 0x200a || n == 0x2028 || n == 0x2029 || n == 0x202f || n == 0x205f || n == 0x3000
  }

  function Strip(s: string): string {
    if s != "" && IsSpace(s[0]) then Strip(s[1..])
    else if s != "" && IsSpace(s[|s| - 1]) then Strip(s[..|s| - 1])
    else s
  }

  function WithoutCommas(s: string): string {
    if s == "" then ""
    else WithoutCommas(s[..|s| - 1]) + if s[|s| - 1] == ',' then "" else [s[|s| - 1]]
  }

  // ----- tokens and attributes ----------------------------------------------------------

  datatype Attr = Attr(name: string, value: Option<string>)

  /** Names are lower-cased by the tokeniser. */
  datatype Token = Start(tag: string, attrs: seq<Attr>) | End(tag: string) | Text(text: string)

  function Named(attrs: seq<Attr>, name: string): seq<Option<string>> {
    if attrs == [] then []
    else
      Named(attrs[..|attrs| - 1], name)
      + if attrs[|attrs| - 1].name == name then [attrs[|attrs| - 1].value] else []
  }

  /** An attribute declared twice is refused; an absent one reads as one without a value. */
  predicate Once(attrs: seq<Attr>, name: string) {
    |Named(attrs, name)| <= 1
  }

  function Read(attrs: seq<Attr>, name: string): Option<string> {
    var found := Named(attrs, name);
    if found == [] then None else found[0]
  }

  function ReadOr(attrs: seq<Attr>, name: string): string {
    if Read(attrs, name).Some? then Read(attrs, name).value else ""
  }

  predicate Required(attrs: seq<Attr>, name: string) {
    Once(attrs, name) && ReadOr(attrs, name) != ""
  }

  // ----- the reader's state -------------------------------------------------------------

  datatype RawContext = RawContext(scheme: string, cik: string, start: string, end: string, segmented: bool)

  datatype RawFact = RawFact(id: string, name: string, context: string, unit: string, decimals: string, scale: string,
                             display: string, sign: Option<string>, format: Option<string>)

  datatype Frame = Frame(attrs: seq<Attr>, text: string)

  /** units keeps insertion order, as the dictionary does. */
  datatype Reading = Reading(contexts: map<string, RawContext>, units: seq<(string, string)>, facts: seq<RawFact>,
                             context: Option<string>, open: RawContext, unit: Option<string>, measure: string,
                             stack: seq<Frame>, ids: set<string>, collecting: string, text: string)

  const NO_CONTEXT: RawContext := RawContext("", "", "", "", false)

  const FRESH: Reading := Reading(map[], [], [], None, NO_CONTEXT, None, "", [], {}, "", "")

  function Collect(r: Reading, tag: string): Reading {
    r.(collecting := tag, text := "")
  }

  function Collected(r: Reading): Reading {
    r.(collecting := "", text := "")
  }

  predicate NamesTarget(f: Frame) {
    ReadOr(f.attrs, "name") == TARGET_CONCEPT
  }

  predicate HasUnit(units: seq<(string, string)>, id: string) {
    exists i :: 0 <= i < |units| && units[i].0 == id
  }

  /** handle_starttag; None is the refusal. */
  function TakeStart(r: Reading, tag: string, attrs: seq<Attr>): Option<Reading> {
    if tag == "xbrli:context" then
      if !Required(attrs, "id") then None else Some(r.(context := Read(attrs, "id"), open := NO_CONTEXT))
    else if tag == "xbrli:segment" || tag == "xbrli:scenario" then
      Some(if r.context.Some? then r.(open := r.open.(segmented := true)) else r)
    else if tag == "xbrli:identifier" then
      if !Once(attrs, "scheme") then None
      else Some(Collect(r.(open := r.open.(scheme := ReadOr(attrs, "scheme"))), tag))
    else if tag == "xbrli:startdate" || tag == "xbrli:enddate" || tag == "xbrli:measure" then Some(Collect(r, tag))
    else if tag == "xbrli:unit" then
      if !Required(attrs, "id") then None else Some(r.(unit := Read(attrs, "id"), measure := ""))
    else if tag == "ix:nonfraction" then
      if !Once(attrs, "name") then None
      else if r.stack != [] && (NamesTarget(Frame(attrs, "")) || exists i :: 0 <= i < |r.stack| && NamesTarget(r.stack[i]))
      then None
      else Some(r.(stack := r.stack + [Frame(attrs, "")]))
    else Some(r)
  }

  predicate Recordable(r: Reading, attrs: seq<Attr>) {
    && Required(attrs, "id") && FactId(ReadOr(attrs, "id")) && ReadOr(attrs, "id") !in r.ids
    && Once(attrs, "sign") && Once(attrs, "format") && Required(attrs, "name") && Required(attrs, "contextref")
    && Once(attrs, "unitref") && Once(attrs, "decimals") && Once(attrs, "scale")
  }

  function FactOf(f: Frame): RawFact {
    RawFact(ReadOr(f.attrs, "id"), ReadOr(f.attrs, "name"), ReadOr(f.attrs, "contextref"), ReadOr(f.attrs, "unitref"),
            ReadOr(f.attrs, "decimals"), ReadOr(f.attrs, "scale"), Strip(f.text), Read(f.attrs, "sign"),
            Read(f.attrs, "format"))
  }

  /** handle_endtag; None is the refusal. */
  function TakeEnd(r: Reading, tag: string): Option<Reading> {
    if tag == "xbrli:identifier" then Some(Collected(r.(open := r.open.(cik := Strip(r.text)))))
    else if tag == "xbrli:startdate" then Some(Collected(r.(open := r.open.(start := Strip(r.text)))))
    else if tag == "xbrli:enddate" then Some(Collected(r.(open := r.open.(end := Strip(r.text)))))
    else if tag == "xbrli:context" then
      if r.context.None? then Some(r)
      else if r.context.value in r.contexts then None
      else Some(r.(contexts := r.contexts[r.context.value := r.open], context := None, open := r.open.(segmented := false)))
    else if tag == "xbrli:measure" then Some(Collected(r.(measure := Strip(r.text))))
    else if tag == "xbrli:unit" then
      if r.unit.None? || r.measure == "" then Some(r.(unit := None, measure := ""))
      else if HasUnit(r.units, r.unit.value) then None
      else Some(r.(units := r.units + [(r.unit.value, r.measure)], unit := None, measure := ""))
    else if tag == "ix:nonfraction" then
      if r.stack == [] then Some(r)
      else
        var top := r.stack[|r.stack| - 1];
        if !Recordable(r, top.attrs) then None
        else Some(r.(stack := r.stack[..|r.stack| - 1], ids := r.ids + {ReadOr(top.attrs, "id")},
                     facts := r.facts + [FactOf(top)]))
    else Some(r)
  }

  /** handle_data: text goes to whatever is being collected and to the innermost fact. */
  function TakeText(r: Reading, text: string): Reading {
    var c := if r.collecting != "" then r.(text := r.text + text) else r;
    if r.stack == [] then c
    else
      var k := |r.stack| - 1;
      c.(stack := r.stack[k := r.stack[k].(text := r.stack[k].text + text)])
  }

  function Take(r: Reading, t: Token): Option<Reading> {
    match t
    case Start(tag, attrs) => TakeStart(r, tag, attrs)
    case End(tag) => TakeEnd(r, tag)
    case Text(text) => Some(TakeText(r, text))
  }

  function TakeAll(r: Reading, tokens: seq<Token>): Option<Reading> {
    if tokens == [] then Some(r)
    else
      match TakeAll(r, tokens[..|tokens| - 1])
      case None => None
      case Some(mid) => Take(mid, tokens[|tokens| - 1])
  }

  // ----- the reader ---------------------------------------------------------------------

  class FilingReader {
    var contexts: map<string, RawContext>
    var units: seq<(string, string)>
    var facts: seq<RawFact>
    var context: Option<string>
    var open: RawContext
    var unit: Option<string>
    var measure: string
    var stack: seq<Frame>
    var ids: set<string>
    var collecting: string
    var text: string

    ghost function View(): Reading
      reads this
    {
      Reading(contexts, units, facts, context, open, unit, measure, stack, ids, collecting, text)
    }

    constructor ()
      ensures View() == FRESH
    {
      contexts, units, facts := map[], [], [];
      context, open, unit, measure := None, NO_CONTEXT, None, "";
      stack, ids, collecting, text := [], {}, "", "";
    }

    method StartCollect(tag: string)
      modifies this`collecting, this`text
      ensures View() == Collect(old(View()), tag)
    {
      collecting, text := tag, "";
    }

    method EndCollect() returns (collected: string)
      modifies this`collecting, this`text
      ensures collected == Strip(old(text)) && View() == Collected(old(View()))
    {
      collected := Strip(text);
      collecting, text := "", "";
    }

    method HandleData(data: string)
      modifies this
      ensures View() == TakeText(old(View()), data)
    {
      if collecting != "" {
        text := text + data;
      }
      if stack != [] {
        var k := |stack| - 1;
        stack := stack[k := stack[k].(text := stack[k].text + data)];
      }
    }

    method HandleStart(tag: string, attrs: seq<Attr>) returns (admitted: bool)
      modifies this
      ensures admitted ==> TakeStart(old(View()), tag, attrs) == Some(View())
      ensures !admitted ==> TakeStart(old(View()), tag, attrs) == None
    {
      admitted := true;
      if tag == "xbrli:context" {
        if !Required(attrs, "id") {
          return false;
        }
        context, open := Read(attrs, "id"), NO_CONTEXT;
      } else if tag == "xbrli:segment" || tag == "xbrli:scenario" {
        if context.Some? {
          open := open.(segmented := true);
        }
      } else if tag == "xbrli:identifier" {
        if !Once(attrs, "scheme") {
          return false;
        }
        open := open.(scheme := ReadOr(attrs, "scheme"));
        StartCollect(tag);
      } else if tag == "xbrli:startdate" || tag == "xbrli:enddate" || tag == "xbrli:measure" {
        StartCollect(tag);
      } else if tag == "xbrli:unit" {
        if !Required(attrs, "id") {
          return false;
        }
        unit, measure := Read(attrs, "id"), "";
      } else if tag == "ix:nonfraction" {
        if !Once(attrs, "name") {
          return false;
        }
        var nested := false;
        for i := 0 to |stack|
          invariant nested <==> exists k :: 0 <= k < i && NamesTarget(stack[k])
        {
          nested := nested || NamesTarget(stack[i]);
        }
        if stack != [] && (ReadOr(attrs, "name") == TARGET_CONCEPT || nested) {
          return false;
        }
        stack := stack + [Frame(attrs, "")];
      }
    }

    method HandleEnd(tag: string) returns (admitted: bool)
      modifies this
      ensures admitted ==> TakeEnd(old(View()), tag) == Some(View())
      ensures !admitted ==> TakeEnd(old(View()), tag) == None
    {
      admitted := true;
      if tag == "xbrli:identifier" {
        var collected := EndCollect();
        open := open.(cik := collected);
      } else if tag == "xbrli:startdate" {
        var collected := EndCollect();
        open := open.(start := collected);
      } else if tag == "xbrli:enddate" {
        var collected := EndCollect();
        open := open.(end := collected);
      } else if tag == "xbrli:context" {
        if context.Some? {
          if context.value in contexts {
            return false;
          }
          contexts := contexts[context.value := open];
          context, open := None, open.(segmented := false);
        }
      } else if tag == "xbrli:measure" {
        measure := EndCollect();
      } else if tag == "xbrli:unit" {
        if unit.Some? && measure != "" {
          if HasUnit(units, unit.value) {
            return false;
          }
          units := units + [(unit.value, measure)];
        }
        unit, measure := None, "";
      } else if tag == "ix:nonfraction" {
        admitted := EndFact();
      }
    }

    method EndFact() returns (admitted: bool)
      modifies this
      ensures admitted ==> TakeEnd(old(View()), "ix:nonfraction") == Some(View())
      ensures !admitted ==> TakeEnd(old(View()), "ix:nonfraction") == None
    {
      if stack == [] {
        return true;
      }
      var top := stack[|stack| - 1];
      stack := stack[..|stack| - 1];
      if !Required(top.attrs, "id") {
        return false;
      }
      var id := ReadOr(top.attrs, "id");
      if !FactId(id) || id in ids {
        return false;
      }
      ids := ids + {id};
      if !Once(top.attrs, "sign") || !Once(top.attrs, "format") || !Required(top.attrs, "name")
         || !Required(top.attrs, "contextref") || !Once(top.attrs, "unitref") || !Once(top.attrs, "decimals")
         || !Once(top.attrs, "scale")
      {
        return false;
      }
      facts := facts + [FactOf(top)];
      admitted := true;
    }

    /** feed and close. */
    method Feed(tokens: seq<Token>) returns (admitted: bool)
      modifies this
      ensures admitted ==> TakeAll(old(View()), tokens) == Some(View())
      ensures !admitted ==> TakeAll(old(View()), tokens) == None
    {
      ghost var start := View();
      for i := 0 to |tokens|
        invariant TakeAll(start, tokens[..i]) == Some(View())
      {
        assert tokens[..i + 1][..i] == tokens[..i];
        var ok := true;
        match tokens[i] {
          case Start(tag, attrs) => ok := HandleStart(tag, attrs);
          case End(tag) => ok := HandleEnd(tag);
          case Text(data) => HandleData(data);
        }
        if !ok {
          RefusedStays(start, tokens, i + 1);
          return false;
        }
      }
      assert tokens[..|tokens|] == tokens;
      admitted := true;
    }
  }

  lemma {:induction false} RefusedStays(r: Reading, tokens: seq<Token>, i: nat)
    requires i <= |tokens| && TakeAll(r, tokens[..i]) == None
    ensures TakeAll(r, tokens) == None
    decreases |tokens| - i
  {
    if i == |tokens| {
      assert tokens[..i] == tokens;
    } else {
      assert tokens[..i + 1][..i] == tokens[..i];
      RefusedStays(r, tokens, i + 1);
    }
  }

  // ----- what an accepted stream has ----------------------------------------------------

  ghost predicate UniqueIds(facts: seq<RawFact>) {
    forall i, j :: 0 <= i < j < |facts| ==> facts[i].id != facts[j].id
  }

  ghost predicate ReaderInv(r: Reading) {
    && UniqueIds(r.facts)
    && (forall i :: 0 <= i < |r.facts| ==> FactId(r.facts[i].id) && r.facts[i].id in r.ids)
    && (|r.stack| >= 2 ==> forall i :: 0 <= i < |r.stack| ==> !NamesTarget(r.stack[i]))
  }

  lemma TakeKeeps(r: Reading, t: Token)
    requires ReaderInv(r) && Take(r, t).Some?
    ensures ReaderInv(Take(r, t).value)
  {
    hide Named, Strip, FactId;
    var r' := Take(r, t).value;
    if t.Text? && r.stack != [] {
      assert forall i :: 0 <= i < |r.stack| ==> r'.stack[i].attrs == r.stack[i].attrs;
    }
  }

  /** Over any token stream the reader accepts: fact ids are unique and well formed, and no open fact
      nests with one of the target concept. */
  lemma {:induction false} AcceptedStream(tokens: seq<Token>)
    requires TakeAll(FRESH, tokens).Some?
    ensures ReaderInv(TakeAll(FRESH, tokens).value)
  {
    if tokens != [] {
      AcceptedStream(tokens[..|tokens| - 1]);
      TakeKeeps(TakeAll(FRESH, tokens[..|tokens| - 1]).value, tokens[|tokens| - 1]);
    }
  }

  /** All the text of a token sequence. */
  function AllText(tokens: seq<Token>): string {
    if tokens == [] then ""
    else AllText(tokens[..|tokens| - 1]) + if tokens[|tokens| - 1].Text? then tokens[|tokens| - 1].text else ""
  }

  predicate IsFactStart(t: Token) {
    t.Start? && t.tag == "ix:nonfraction"
  }

  predicate IsFactEnd(t: Token) {
    t.End? && t.tag == "ix:nonfraction"
  }

  lemma {:induction false} InsideTarget(r: Reading, mid: seq<Token>)
    requires |r.stack| == 1 && NamesTarget(r.stack[0]) && TakeAll(r, mid).Some?
    requires forall i :: 0 <= i < |mid| ==> !IsFactEnd(mid[i])
    ensures forall i :: 0 <= i < |mid| ==> !IsFactStart(mid[i])
    ensures var r' := TakeAll(r, mid).value;
            && r'.stack == [Frame(r.stack[0].attrs, r.stack[0].text + AllText(mid))]
            && r'.facts == r.facts && r'.ids == r.ids
  {
    if mid == [] {
      assert r.stack[0].text + AllText(mid) == r.stack[0].text;
      assert r.stack == [r.stack[0]];
    } else {
      hide Take, NamesTarget;
      var k := |mid| - 1;
      InsideTarget(r, mid[..k]);
      var before := TakeAll(r, mid[..k]).value;
      StillTarget(r.stack[0], before.stack[0]);
      OneInside(before, mid[k]);
      AllTextSnoc(r.stack[0].text, mid);
      assert TakeAll(r, mid) == Take(before, mid[k]);
      assert forall i :: 0 <= i < k ==> mid[i] == mid[..k][i];
      hide TakeAll, AllText, IsFactStart, IsFactEnd;
    }
  }

  lemma AllTextSnoc(head: string, mid: seq<Token>)
    requires mid != []
    ensures head + AllText(mid)
            == head + AllText(mid[..|mid| - 1]) + if mid[|mid| - 1].Text? then mid[|mid| - 1].text else ""
  {
    Assoc(head, AllText(mid[..|mid| - 1]), if mid[|mid| - 1].Text? then mid[|mid| - 1].text else "");
  }

  lemma Assoc(a: string, b: string, c: string)
    ensures a + (b + c) == a + b + c
  {
  }

  lemma StillTarget(f: Frame, g: Frame)
    requires NamesTarget(f) && g.attrs == f.attrs
    ensures NamesTarget(g)
  {
  }

  lemma OneInside(r: Reading, t: Token)
    requires |r.stack| == 1 && NamesTarget(r.stack[0]) && Take(r, t).Some? && !IsFactEnd(t)
    ensures !IsFactStart(t)
    ensures var r' := Take(r, t).value;
            && r'.stack == [Frame(r.stack[0].attrs, r.stack[0].text + if t.Text? then t.text else "")]
            && r'.facts == r.facts && r'.ids == r.ids
  {
    hide Named, Strip;
    assert r.stack[0].text + "" == r.stack[0].text && r.stack == [r.stack[0]];
  }

  /** The value recorded for a fact of the target concept is the whole of the text between its tags:
      nothing nested can have taken a part of it, and nothing else is recorded meanwhile. */
  lemma TargetTextIsWhole(r: Reading, attrs: seq<Attr>, mid: seq<Token>)
    requires r.stack == [] && ReadOr(attrs, "name") == TARGET_CONCEPT
    requires forall i :: 0 <= i < |mid| ==> !IsFactEnd(mid[i])
    requires TakeAll(r, [Start("ix:nonfraction", attrs)] + mid + [End("ix:nonfraction")]).Some?
    ensures forall i :: 0 <= i < |mid| ==> !IsFactStart(mid[i])
    ensures TakeAll(r, [Start("ix:nonfraction", attrs)] + mid + [End("ix:nonfraction")]).value.facts
            == r.facts + [FactOf(Frame(attrs, AllText(mid)))]
  {
    hide Named, Strip, FactOf;
    var first, last := [Start("ix:nonfraction", attrs)], End("ix:nonfraction");
    var tokens := first + mid + [last];
    assert tokens[..|tokens| - 1] == first + mid;
    TakeConcat(r, first, mid);
    assert TakeAll(r, first) == Take(r, first[0]) by {
      assert first[..0] == [];
    }
    var inside := Take(r, first[0]).value;
    InsideTarget(inside, mid);
    assert "" + AllText(mid) == AllText(mid);
  }

  lemma {:induction false} TakeConcat(r: Reading, a: seq<Token>, b: seq<Token>)
    ensures TakeAll(r, a + b) == match TakeAll(r, a) case None => None case Some(mid) => TakeAll(mid, b)
  {
    if b == [] {
      assert a + b == a;
    } else {
      TakeConcat(r, a, b[..|b| - 1]);
      assert (a + b)[..|a + b| - 1] == a + b[..|b| - 1];
    }
  }
}
