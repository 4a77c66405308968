// Documents as the filer writes them: contexts, units and facts as tokens, and what the reader makes of
// them.
module Documents {
  import opened EventTypes
  import opened Artifacts
  import opened Filing

  // ----- stripping ----------------------------------------------------------------------

  predicate Blank(s: string) {
    forall i :: 0 <= i < |s| ==> IsSpace(s[i])
  }

  predicate Tight(s: string) {
    s != "" ==> !IsSpace(s[0]) && !IsSpace(s[|s| - 1])
  }

  /** Blank padding is stripped and nothing else. */
  lemma {:induction false} StripExactly(left: string, core: string, right: string)
    requires Blank(left) && Tight(core) && Blank(right)
    ensures Strip(left + core + right) == core
    decreases |left| + |right|
  {
    var s := left + core + right;
    if left != "" {
      assert s[0] == left[0] && s[1..] == left[1..] + core + right;
      StripExactly(left[1..], core, right);
    } else if right != "" {
      var k := |right| - 1;
      assert s[|s| - 1] == right[k] && s[..|s| - 1] == left + core + right[..k];
      StripExactly(left, core, right[..k]);
      if core == "" {
        BlankStripped(s);
      }
    } else {
      assert s == core;
    }
  }

  lemma {:induction false} BlankStripped(s: string)
    requires Blank(s)
    ensures Strip(s) == ""
  {
    if s != "" {
      BlankStripped(s[1..]);
    }
  }

  // ----- tokens, one after another ------------------------------------------------------

  lemma TakeCons(r: Reading, t: Token, rest: seq<Token>)
    ensures TakeAll(r, [t] + rest) == match Take(r, t) case None => None case Some(mid) => TakeAll(mid, rest)
  {
    TakeConcat(r, [t], rest);
    assert [t][..0] == [];
    assert TakeAll(r, [t]) == Take(r, t);
  }

  /** Nothing is open: the next token begins something. */
  predicate Quiet(r: Reading) {
    r.context == None && r.unit == None && r.measure == "" && r.stack == [] && r.collecting == ""
  }

  /** What has been collected. */
  predicate Collects(r: Reading, contexts: map<string, RawContext>, units: seq<(string, string)>, facts: seq<RawFact>, ids: set<string>) {
    Quiet(r) && r.contexts == contexts && r.units == units && r.facts == facts && r.ids == ids
  }

  // ----- the three elements -------------------------------------------------------------

  /** A text written with blanks around it. */
  datatype Padded = Padded(left: string, text: string, right: string) {
    predicate Good() { Blank(left) && Tight(text) && Blank(right) }
    function Shown(): string { left + text + right }
  }

  datatype Item =
    | ContextItem(id: string, scheme: string, cik: Padded, segmented: bool, start: Padded, end: Padded)
    | UnitItem(id: string, measure: Padded)
    | FactItem(id: string, name: string, context: string, unit: string, decimals: string, scale: string, display: Padded,
               sign: Option<string>, format: Option<string>)
    | OtherText(text: string)

  /** One attribute if there is a value for it. */
  function Optional(name: string, value: Option<string>): seq<Attr> {
    if value.Some? then [Attr(name, value)] else []
  }

  function Element(tag: string, text: Padded): seq<Token> {
    [Start(tag, []), Text(text.Shown()), End(tag)]
  }

  function FactAttrs(f: Item): seq<Attr>
    requires f.FactItem?
  {
    [Attr("id", Some(f.id)), Attr("name", Some(f.name)), Attr("contextref", Some(f.context)), Attr("unitref", Some(f.unit)),
     Attr("decimals", Some(f.decimals)), Attr("scale", Some(f.scale))]
    + Optional("sign", f.sign) + Optional("format", f.format)
  }

  function Tokens(item: Item): seq<Token> {
    match item
    case ContextItem(id, scheme, cik, segmented, start, end) =>
      [Start("xbrli:context", [Attr("id", Some(id))])]
      + ([Start("xbrli:identifier", [Attr("scheme", Some(scheme))]), Text(cik.Shown()), End("xbrli:identifier")]
         + ((if segmented then [Start("xbrli:segment", []), End("xbrli:segment")] else [])
            + (Element("xbrli:startdate", start) + (Element("xbrli:enddate", end) + [End("xbrli:context")]))))
    case UnitItem(id, measure) =>
      [Start("xbrli:unit", [Attr("id", Some(id))])] + (Element("xbrli:measure", measure) + [End("xbrli:unit")])
    case FactItem(_, _, _, _, _, _, display, _, _) =>
      [Start("ix:nonfraction", FactAttrs(item)), Text(display.Shown()), End("ix:nonfraction")]
    case OtherText(text) => [Text(text)]
  }

  /** What the reader asks of one element on its own. */
  predicate Good(item: Item) {
    match item
    case ContextItem(id, _, cik, _, start, end) => id != "" && cik.Good() && start.Good() && end.Good()
    case UnitItem(id, measure) => id != "" && measure.Good() && measure.text != ""
    case FactItem(id, name, context, _, _, _, display, _, _) => FactId(id) && name != "" && context != "" && display.Good()
    case OtherText(_) => true
  }

  function ContextOf(item: Item): RawContext
    requires item.ContextItem?
  {
    RawContext(item.scheme, item.cik.text, item.start.text, item.end.text, item.segmented)
  }

  function RawOf(item: Item): RawFact
    requires item.FactItem?
  {
    RawFact(item.id, item.name, item.context, item.unit, item.decimals, item.scale, item.display.text, item.sign, item.format)
  }
  // ----- one element read ---------------------------------------------------------------

  lemma Shows(p: Padded)
    requires p.Good()
    ensures Strip(p.Shown()) == p.text && "" + p.Shown() == p.Shown()
  {
    StripExactly(p.left, p.text, p.right);
  }

  /** The three elements whose text is collected for its own sake. */
  predicate Collecting(tag: string) {
    tag == "xbrli:startdate" || tag == "xbrli:enddate" || tag == "xbrli:measure"
  }

  function WithText(r: Reading, tag: string, text: string): Reading {
    r.(collecting := "", text := "",
       open := if tag == "xbrli:startdate" then r.open.(start := text)
               else if tag == "xbrli:enddate" then r.open.(end := text) else r.open,
       measure := if tag == "xbrli:measure" then text else r.measure)
  }

  lemma CollectSteps(r: Reading, tag: string, text: string)
    requires Collecting(tag) && r.stack == []
    ensures Take(r, Start(tag, [])) == Some(r.(collecting := tag, text := ""))
    ensures Take(r.(collecting := tag, text := ""), Text(text)) == Some(r.(collecting := tag, text := "" + text))
    ensures Take(r.(collecting := tag, text := text), End(tag)) == Some(WithText(r, tag, Strip(text)))
  {
    hide Strip, Required, Once, Recordable, FactOf;
  }

  lemma ElementTaken(r: Reading, tag: string, p: Padded, rest: seq<Token>)
    requires p.Good() && r.stack == []
    requires Collecting(tag)
    ensures TakeAll(r, Element(tag, p) + rest) == TakeAll(WithText(r, tag, p.text), rest)
  {
    Shows(p);
    CollectSteps(r, tag, p.Shown());
    hide Strip, TakeAll, Take, Collecting, WithText;
    assert Element(tag, p) + rest == [Start(tag, [])] + ([Text(p.Shown())] + ([End(tag)] + rest));
    TakeCons(r, Start(tag, []), [Text(p.Shown())] + ([End(tag)] + rest));
    var r1 := r.(collecting := tag, text := "");
    TakeCons(r1, Text(p.Shown()), [End(tag)] + rest);
    TakeCons(r1.(text := p.Shown()), End(tag), rest);
  }

  lemma OneAttr(name: string, value: string)
    ensures var attrs := [Attr(name, Some(value))];
            Once(attrs, name) && Read(attrs, name) == Some(value) && ReadOr(attrs, name) == value
            && (Required(attrs, name) <==> value != "")
  {
    var attrs := [Attr(name, Some(value))];
    assert attrs[..0] == [] && Named([], name) == [];
    assert Named(attrs, name) == [Some(value)];
  }

  lemma IdentifierTaken(r: Reading, scheme: string, p: Padded, rest: seq<Token>)
    requires p.Good() && r.stack == []
    ensures TakeAll(r, [Start("xbrli:identifier", [Attr("scheme", Some(scheme))]), Text(p.Shown()), End("xbrli:identifier")] + rest)
            == TakeAll(r.(collecting := "", text := "", open := r.open.(scheme := scheme, cik := p.text)), rest)
  {
    Shows(p);
    OneAttr("scheme", scheme);
    hide Strip, Named, TakeAll, Required, Recordable, FactOf;
    var first := Start("xbrli:identifier", [Attr("scheme", Some(scheme))]);
    assert [first, Text(p.Shown()), End("xbrli:identifier")] + rest == [first] + ([Text(p.Shown())] + ([End("xbrli:identifier")] + rest));
    TakeCons(r, first, [Text(p.Shown())] + ([End("xbrli:identifier")] + rest));
    var r1 := r.(open := r.open.(scheme := scheme), collecting := "xbrli:identifier", text := "");
    TakeCons(r1, Text(p.Shown()), [End("xbrli:identifier")] + rest);
    TakeCons(r1.(text := p.Shown()), End("xbrli:identifier"), rest);
  }

  lemma SegmentTaken(r: Reading, segmented: bool, rest: seq<Token>)
    requires r.context.Some?
    ensures TakeAll(r, (if segmented then [Start("xbrli:segment", []), End("xbrli:segment")] else []) + rest)
            == TakeAll(r.(open := r.open.(segmented := r.open.segmented || segmented)), rest)
  {
    hide Strip, TakeAll, Required, Once, Recordable, FactOf;
    if segmented {
      assert [Start("xbrli:segment", []), End("xbrli:segment")] + rest == [Start("xbrli:segment", [])] + ([End("xbrli:segment")] + rest);
      TakeCons(r, Start("xbrli:segment", []), [End("xbrli:segment")] + rest);
      TakeCons(r.(open := r.open.(segmented := true)), End("xbrli:segment"), rest);
    } else {
      assert [] + rest == rest;
    }
  }

  /** The reader after a context. */
  function WithContext(r: Reading, item: Item): Reading
    requires item.ContextItem?
  {
    r.(contexts := r.contexts[item.id := ContextOf(item)], context := None, open := ContextOf(item).(segmented := false),
       collecting := "", text := "")
  }

  lemma ContextTaken(r: Reading, item: Item)
    requires Quiet(r) && item.ContextItem? && Good(item)
    ensures TakeAll(r, Tokens(item)) == if item.id in r.contexts then None else Some(WithContext(r, item))
  {
    hide TakeAll, Named, Strip, Element;
    OneAttr("id", item.id);
    var last := [End("xbrli:context")];
    var dates := Element("xbrli:startdate", item.start) + (Element("xbrli:enddate", item.end) + last);
    var segment := if item.segmented then [Start("xbrli:segment", []), End("xbrli:segment")] else [];
    var filer := [Start("xbrli:identifier", [Attr("scheme", Some(item.scheme))]), Text(item.cik.Shown()), End("xbrli:identifier")];
    TakeCons(r, Start("xbrli:context", [Attr("id", Some(item.id))]), filer + (segment + dates));
    var r1 := r.(context := Some(item.id), open := NO_CONTEXT);
    IdentifierTaken(r1, item.scheme, item.cik, segment + dates);
    var r2 := r1.(collecting := "", text := "", open := RawContext(item.scheme, item.cik.text, "", "", false));
    SegmentTaken(r2, item.segmented, dates);
    var r3 := r2.(open := RawContext(item.scheme, item.cik.text, "", "", item.segmented));
    ElementTaken(r3, "xbrli:startdate", item.start, Element("xbrli:enddate", item.end) + last);
    var r4 := r3.(open := RawContext(item.scheme, item.cik.text, item.start.text, "", item.segmented));
    ElementTaken(r4, "xbrli:enddate", item.end, last);
    var r5 := r4.(open := ContextOf(item));
    EndTaken(r5, "xbrli:context");
  }

  lemma EndTaken(r: Reading, tag: string)
    ensures TakeAll(r, [End(tag)]) == TakeEnd(r, tag)
  {
    assert [End(tag)][..0] == [];
  }

  lemma UnitTaken(r: Reading, item: Item)
    requires Quiet(r) && item.UnitItem? && Good(item)
    ensures TakeAll(r, Tokens(item))
            == if HasUnit(r.units, item.id) then None
               else Some(r.(units := r.units + [(item.id, item.measure.text)], collecting := "", text := ""))
  {
    hide TakeAll, Named, Strip, Element, HasUnit;
    OneAttr("id", item.id);
    TakeCons(r, Start("xbrli:unit", [Attr("id", Some(item.id))]), Element("xbrli:measure", item.measure) + [End("xbrli:unit")]);
    var r1 := r.(unit := Some(item.id), measure := "");
    ElementTaken(r1, "xbrli:measure", item.measure, [End("xbrli:unit")]);
    EndTaken(r1.(collecting := "", text := "", measure := item.measure.text), "xbrli:unit");
  }

  lemma NamedSnoc(attrs: seq<Attr>, a: Attr, name: string)
    ensures Named(attrs + [a], name) == Named(attrs, name) + if a.name == name then [a.value] else []
  {
    assert (attrs + [a])[..|attrs|] == attrs;
  }

  lemma NamedOptional(attrs: seq<Attr>, name: string, value: Option<string>, other: string)
    ensures Named(attrs + Optional(name, value), other)
            == Named(attrs, other) + if name == other && value.Some? then [value] else []
  {
    if value.Some? {
      NamedSnoc(attrs, Attr(name, value), other);
    } else {
      assert attrs + [] == attrs;
    }
  }

  lemma SixNamed(f: Item, name: string)
    requires f.FactItem?
    ensures Named([Attr("id", Some(f.id)), Attr("name", Some(f.name)), Attr("contextref", Some(f.context)),
                   Attr("unitref", Some(f.unit)), Attr("decimals", Some(f.decimals)), Attr("scale", Some(f.scale))], name)
            == if name == "id" then [Some(f.id)] else if name == "name" then [Some(f.name)]
               else if name == "contextref" then [Some(f.context)] else if name == "unitref" then [Some(f.unit)]
               else if name == "decimals" then [Some(f.decimals)] else if name == "scale" then [Some(f.scale)] else []
  {
    var a1 := [Attr("id", Some(f.id))];
    assert a1 == [] + a1;
    NamedSnoc([], Attr("id", Some(f.id)), name);
    var a2 := a1 + [Attr("name", Some(f.name))];
    NamedSnoc(a1, Attr("name", Some(f.name)), name);
    var a3 := a2 + [Attr("contextref", Some(f.context))];
    NamedSnoc(a2, Attr("contextref", Some(f.context)), name);
    var a4 := a3 + [Attr("unitref", Some(f.unit))];
    NamedSnoc(a3, Attr("unitref", Some(f.unit)), name);
    var a5 := a4 + [Attr("decimals", Some(f.decimals))];
    NamedSnoc(a4, Attr("decimals", Some(f.decimals)), name);
    NamedSnoc(a5, Attr("scale", Some(f.scale)), name);
    assert a5 + [Attr("scale", Some(f.scale))]
           == [Attr("id", Some(f.id)), Attr("name", Some(f.name)), Attr("contextref", Some(f.context)),
               Attr("unitref", Some(f.unit)), Attr("decimals", Some(f.decimals)), Attr("scale", Some(f.scale))];
    hide Named;
  }

  lemma FactNamed(f: Item, name: string)
    requires f.FactItem?
    ensures Named(FactAttrs(f), name)
            == if name == "id" then [Some(f.id)] else if name == "name" then [Some(f.name)]
               else if name == "contextref" then [Some(f.context)] else if name == "unitref" then [Some(f.unit)]
               else if name == "decimals" then [Some(f.decimals)] else if name == "scale" then [Some(f.scale)]
               else if name == "sign" && f.sign.Some? then [f.sign] else if name == "format" && f.format.Some? then [f.format] else []
  {
    hide Named;
    var six := [Attr("id", Some(f.id)), Attr("name", Some(f.name)), Attr("contextref", Some(f.context)),
                Attr("unitref", Some(f.unit)), Attr("decimals", Some(f.decimals)), Attr("scale", Some(f.scale))];
    SixNamed(f, name);
    NamedOptional(six, "sign", f.sign, name);
    NamedOptional(six + Optional("sign", f.sign), "format", f.format, name);
  }

  lemma FactReads(f: Item, text: string)
    requires f.FactItem? && Good(f) && Strip(text) == f.display.text
    ensures var attrs := FactAttrs(f);
            && Once(attrs, "name") && ReadOr(attrs, "id") == f.id && FactOf(Frame(attrs, text)) == RawOf(f)
            && forall r: Reading :: Recordable(r, attrs) <==> f.id !in r.ids
  {
    hide Named, Strip;
    FactNamed(f, "id");
    FactNamed(f, "name");
    FactNamed(f, "contextref");
    FactNamed(f, "unitref");
    FactNamed(f, "decimals");
    FactNamed(f, "scale");
    FactNamed(f, "sign");
    FactNamed(f, "format");
  }

  lemma FactTaken(r: Reading, f: Item)
    requires Quiet(r) && f.FactItem? && Good(f)
    ensures TakeAll(r, Tokens(f))
            == if f.id in r.ids then None else Some(r.(facts := r.facts + [RawOf(f)], ids := r.ids + {f.id}))
  {
    hide TakeAll, Named, Strip, FactAttrs, Required, Once, ReadOr, FactOf, Recordable;
    Shows(f.display);
    FactReads(f, f.display.Shown());
    var attrs, text := FactAttrs(f), f.display.Shown();
    assert Tokens(f) == [Start("ix:nonfraction", attrs)] + ([Text(text)] + [End("ix:nonfraction")]);
    TakeCons(r, Start("ix:nonfraction", attrs), [Text(text)] + [End("ix:nonfraction")]);
    var r1 := r.(stack := [Frame(attrs, "")]);
    assert r.stack + [Frame(attrs, "")] == [Frame(attrs, "")];
    TakeCons(r1, Text(text), [End("ix:nonfraction")]);
    var r2 := r.(stack := [Frame(attrs, text)]);
    TextInFact(r1, attrs, text);
    EndTaken(r2, "ix:nonfraction");
    assert r2.stack[..0] == r.stack;
  }

  lemma TextInFact(r: Reading, attrs: seq<Attr>, text: string)
    requires r.stack == [Frame(attrs, "")] && r.collecting == ""
    ensures TakeText(r, text) == r.(stack := [Frame(attrs, text)])
  {
    assert "" + text == text;
    assert [Frame(attrs, "")][0 := Frame(attrs, text)] == [Frame(attrs, text)];
  }

  lemma TextTaken(r: Reading, text: string)
    requires Quiet(r)
    ensures TakeAll(r, [Text(text)]) == Some(r)
  {
    assert [Text(text)][..0] == [];
  }
  // ----- a whole document ---------------------------------------------------------------

  function AllTokens(items: seq<Item>): seq<Token> {
    if items == [] then [] else AllTokens(items[..|items| - 1]) + Tokens(items[|items| - 1])
  }

  /** Two elements of one sort never share an id. */
  predicate Apart(a: Item, b: Item) {
    && (a.ContextItem? && b.ContextItem? ==> a.id != b.id) && (a.UnitItem? && b.UnitItem? ==> a.id != b.id)
    && (a.FactItem? && b.FactItem? ==> a.id != b.id)
  }

  ghost predicate Distinct(items: seq<Item>) {
    forall i, j :: 0 <= i < j < |items| ==> Apart(items[i], items[j])
  }

  function ContextsOf(items: seq<Item>): map<string, RawContext> {
    if items == [] then map[]
    else
      var before, last := ContextsOf(items[..|items| - 1]), items[|items| - 1];
      if last.ContextItem? then before[last.id := ContextOf(last)] else before
  }

  function UnitsOf(items: seq<Item>): seq<(string, string)> {
    if items == [] then []
    else
      UnitsOf(items[..|items| - 1])
      + if items[|items| - 1].UnitItem? then [(items[|items| - 1].id, items[|items| - 1].measure.text)] else []
  }

  function FactsOf(items: seq<Item>): seq<RawFact> {
    if items == [] then []
    else FactsOf(items[..|items| - 1]) + if items[|items| - 1].FactItem? then [RawOf(items[|items| - 1])] else []
  }

  function IdsOf(items: seq<Item>): set<string> {
    if items == [] then {}
    else IdsOf(items[..|items| - 1]) + if items[|items| - 1].FactItem? then {items[|items| - 1].id} else {}
  }

  /** The ids taken so far, sort by sort. */
  lemma {:induction false} IdsTaken(items: seq<Item>, id: string)
    ensures id in ContextsOf(items) <==> exists i :: 0 <= i < |items| && items[i].ContextItem? && items[i].id == id
    ensures HasUnit(UnitsOf(items), id) <==> exists i :: 0 <= i < |items| && items[i].UnitItem? && items[i].id == id
    ensures id in IdsOf(items) <==> exists i :: 0 <= i < |items| && items[i].FactItem? && items[i].id == id
  {
    if items != [] {
      var k := |items| - 1;
      var before, last := items[..k], items[k];
      IdsTaken(before, id);
      assert forall i :: 0 <= i < k ==> before[i] == items[i];
      UnitSnoc(UnitsOf(before), if last.UnitItem? then [(last.id, last.measure.text)] else [], id);
    }
  }

  lemma UnitSnoc(units: seq<(string, string)>, more: seq<(string, string)>, id: string)
    requires |more| <= 1
    ensures HasUnit(units + more, id) <==> HasUnit(units, id) || (more != [] && more[0].0 == id)
  {
    var all := units + more;
    if HasUnit(units, id) {
      var i :| 0 <= i < |units| && units[i].0 == id;
      assert all[i].0 == id;
    }
    if more != [] {
      assert all[|units|] == more[0];
    }
  }

  lemma ItemTaken(r: Reading, item: Item)
    requires Quiet(r) && Good(item)
    ensures var got := TakeAll(r, Tokens(item));
            && (got.None? <==> (item.ContextItem? && item.id in r.contexts) || (item.UnitItem? && HasUnit(r.units, item.id))
                               || (item.FactItem? && item.id in r.ids))
            && (got.Some? ==>
                  Collects(got.value, if item.ContextItem? then r.contexts[item.id := ContextOf(item)] else r.contexts,
                           r.units + (if item.UnitItem? then [(item.id, item.measure.text)] else []),
                           r.facts + (if item.FactItem? then [RawOf(item)] else []),
                           r.ids + (if item.FactItem? then {item.id} else {})))
  {
    hide TakeAll, Tokens, HasUnit;
    match item
    case ContextItem(_, _, _, _, _, _) => ContextTaken(r, item);
    case UnitItem(_, _) => UnitTaken(r, item);
    case FactItem(_, _, _, _, _, _, _, _, _) => FactTaken(r, item);
    case OtherText(text) =>
      TextTaken(r, text);
      OtherTokens(text);
  }

  lemma OtherTokens(text: string)
    ensures Tokens(OtherText(text)) == [Text(text)]
  {
  }

  lemma DistinctSnoc(items: seq<Item>)
    requires items != []
    ensures var k := |items| - 1;
            Distinct(items) <==> Distinct(items[..k]) && forall i :: 0 <= i < k ==> Apart(items[i], items[k])
  {
    var k := |items| - 1;
    assert forall i :: 0 <= i < k ==> items[..k][i] == items[i];
  }

  /** A document of contexts, units, facts and text between them is accepted if and only if no two elements
      of one sort share an id, and then the reader has collected exactly what was written: every context
      under its id, the units and the facts in order, each text without the blanks around it. */
  lemma {:induction false} DocumentReads(items: seq<Item>)
    requires forall i :: 0 <= i < |items| ==> Good(items[i])
    ensures var got := TakeAll(FRESH, AllTokens(items));
            && (got.Some? <==> Distinct(items))
            && (got.Some? ==> Collects(got.value, ContextsOf(items), UnitsOf(items), FactsOf(items), IdsOf(items)))
  {
    if items != [] {
      hide Tokens, Take, HasUnit, Good, ContextOf, RawOf;
      var k := |items| - 1;
      DocumentReads(items[..k]);
      TakeConcat(FRESH, AllTokens(items[..k]), Tokens(items[k]));
      DistinctSnoc(items);
      if Distinct(items[..k]) {
        var r := TakeAll(FRESH, AllTokens(items[..k])).value;
        ItemTaken(r, items[k]);
        LastApart(items);
      }
      hide TakeAll, AllTokens;
    }
  }

  lemma LastApart(items: seq<Item>)
    requires items != []
    ensures var k := |items| - 1;
            var last := items[k];
            (forall i :: 0 <= i < k ==> Apart(items[i], last))
            <==> !((last.ContextItem? && last.id in ContextsOf(items[..k])) || (last.UnitItem? && HasUnit(UnitsOf(items[..k]), last.id))
                   || (last.FactItem? && last.id in IdsOf(items[..k])))
  {
    hide ContextsOf, UnitsOf, IdsOf, HasUnit;
    var k := |items| - 1;
    var last := items[k];
    assert forall i :: 0 <= i < k ==> items[..k][i] == items[i];
    if !last.OtherText? {
      IdsTaken(items[..k], last.id);
    }
  }
  // ----- what is refused ----------------------------------------------------------------

  ghost predicate Declared(attrs: seq<Attr>, name: string) {
    exists i :: 0 <= i < |attrs| && attrs[i].name == name
  }

  ghost predicate DeclaredTwice(attrs: seq<Attr>, name: string) {
    exists i, j :: 0 <= i < j < |attrs| && attrs[i].name == name && attrs[j].name == name
  }

  /** The attribute is declared with this value. */
  ghost predicate Has(attrs: seq<Attr>, name: string, value: string) {
    Valued(attrs, name, Some(value))
  }

  lemma DeclaredSnoc(attrs: seq<Attr>, name: string)
    requires attrs != []
    ensures var before, last := attrs[..|attrs| - 1], attrs[|attrs| - 1];
            && (Declared(attrs, name) <==> Declared(before, name) || last.name == name)
            && (DeclaredTwice(attrs, name) <==> DeclaredTwice(before, name) || (last.name == name && Declared(before, name)))
  {
    var k := |attrs| - 1;
    assert forall i :: 0 <= i < k ==> attrs[..k][i] == attrs[i];
  }

  predicate Valued(attrs: seq<Attr>, name: string, value: Option<string>) {
    exists i :: 0 <= i < |attrs| && attrs[i] == Attr(name, value)
  }

  lemma ValuedSnoc(attrs: seq<Attr>, name: string, value: Option<string>)
    requires attrs != []
    ensures Valued(attrs, name, value)
            <==> Valued(attrs[..|attrs| - 1], name, value) || attrs[|attrs| - 1] == Attr(name, value)
  {
    var k := |attrs| - 1;
    assert forall i :: 0 <= i < k ==> attrs[..k][i] == attrs[i];
  }

  lemma {:induction false} NamedCounts(attrs: seq<Attr>, name: string)
    ensures Named(attrs, name) != [] <==> Declared(attrs, name)
    ensures |Named(attrs, name)| > 1 <==> DeclaredTwice(attrs, name)
    ensures forall v :: v in Named(attrs, name) <==> Valued(attrs, name, v)
  {
    if attrs != [] {
      NamedCounts(attrs[..|attrs| - 1], name);
      DeclaredSnoc(attrs, name);
      forall v ensures v in Named(attrs, name) <==> Valued(attrs, name, v) {
        ValuedSnoc(attrs, name, v);
      }
      hide Declared, DeclaredTwice, Valued;
    }
  }

  lemma RequiredExactly(attrs: seq<Attr>, name: string)
    ensures Once(attrs, name) <==> !DeclaredTwice(attrs, name)
    ensures Required(attrs, name) <==> !DeclaredTwice(attrs, name) && exists v :: v != "" && Has(attrs, name, v)
    ensures !DeclaredTwice(attrs, name) ==> forall v :: v != "" ==> (ReadOr(attrs, name) == v <==> Has(attrs, name, v))
  {
    hide Named;
    NamedCounts(attrs, name);
    var found := Named(attrs, name);
    if |found| == 1 {
      assert forall v :: v in found <==> v == found[0];
      forall v ensures Has(attrs, name, v) <==> found[0] == Some(v) {
        assert Some(v) in found <==> found[0] == Some(v);
      }
    } else if found == [] {
      forall v ensures !Has(attrs, name, v) {
        assert Some(v) !in found;
      }
    }
  }

  /** A frame names the target concept. */
  ghost predicate OfTarget(attrs: seq<Attr>) {
    ReadOr(attrs, "name") == "us-gaap:RevenueFromContractWithCustomerExcludingAssessedTax"
  }

  /** A start tag is refused exactly for a context or a unit without one non-empty id, an identifier whose
      scheme is declared twice, and a fact whose name is declared twice or that nests with the target
      concept on either side. */
  lemma StartRefusedExactly(r: Reading, tag: string, attrs: seq<Attr>)
    ensures TakeStart(r, tag, attrs) == None <==>
              || ((tag == "xbrli:context" || tag == "xbrli:unit")
                  && (DeclaredTwice(attrs, "id") || !exists v :: v != "" && Has(attrs, "id", v)))
              || (tag == "xbrli:identifier" && DeclaredTwice(attrs, "scheme"))
              || (tag == "ix:nonfraction"
                  && (DeclaredTwice(attrs, "name")
                      || (r.stack != [] && (OfTarget(attrs) || exists i :: 0 <= i < |r.stack| && OfTarget(r.stack[i].attrs)))))
  {
    hide Once, Required, Has, DeclaredTwice, ReadOr;
    RequiredExactly(attrs, "id");
    RequiredExactly(attrs, "scheme");
    RequiredExactly(attrs, "name");
    assert forall i :: 0 <= i < |r.stack| ==> (NamesTarget(r.stack[i]) <==> OfTarget(r.stack[i].attrs));
    assert NamesTarget(Frame(attrs, "")) <==> OfTarget(attrs);
  }

  /** An end tag is refused exactly for a context or a unit whose id is taken, and a fact that is not fit to
      record: no well-formed id of its own, no name or context, or any of its attributes declared twice. */
  lemma EndRefusedExactly(r: Reading, tag: string)
    ensures TakeEnd(r, tag) == None <==>
              || (tag == "xbrli:context" && r.context.Some? && r.context.value in r.contexts)
              || (tag == "xbrli:unit" && r.unit.Some? && r.measure != ""
                  && exists i :: 0 <= i < |r.units| && r.units[i].0 == r.unit.value)
              || (tag == "ix:nonfraction" && r.stack != [] && !Fit(r, r.stack[|r.stack| - 1].attrs))
  {
    hide Once, Required, Has, DeclaredTwice, ReadOr, FactId;
    if r.stack != [] {
      FitExactly(r, r.stack[|r.stack| - 1].attrs);
    }
  }

  ghost predicate Fit(r: Reading, attrs: seq<Attr>) {
    && (forall name :: name in ["id", "sign", "format", "name", "contextref", "unitref", "decimals", "scale"] ==>
          !DeclaredTwice(attrs, name))
    && (exists id :: FactId(id) && id !in r.ids && Has(attrs, "id", id))
    && (exists v :: v != "" && Has(attrs, "name", v))
    && (exists v :: v != "" && Has(attrs, "contextref", v))
  }

  lemma FitExactly(r: Reading, attrs: seq<Attr>)
    ensures Recordable(r, attrs) <==> Fit(r, attrs)
  {
    hide Once, Required, Has, DeclaredTwice, ReadOr;
    RequiredExactly(attrs, "id");
    RequiredExactly(attrs, "sign");
    RequiredExactly(attrs, "format");
    RequiredExactly(attrs, "name");
    RequiredExactly(attrs, "contextref");
    RequiredExactly(attrs, "unitref");
    RequiredExactly(attrs, "decimals");
    RequiredExactly(attrs, "scale");
    if Recordable(r, attrs) {
      assert Has(attrs, "id", ReadOr(attrs, "id"));
    }
  }
  /** Text goes to the innermost open fact and to no other, and to what is being collected if anything is. */
  lemma TextGoesInnermost(r: Reading, text: string)
    ensures var r' := TakeText(r, text);
            && |r'.stack| == |r.stack|
            && (forall i :: 0 <= i < |r.stack| - 1 ==> r'.stack[i] == r.stack[i])
            && (r.stack != [] ==>
                  var top, top' := r.stack[|r.stack| - 1], r'.stack[|r.stack| - 1];
                  top'.attrs == top.attrs && top'.text == top.text + text)
            && r'.text == (if r.collecting == "" then r.text else r.text + text)
            && r'.contexts == r.contexts && r'.units == r.units && r'.facts == r.facts && r'.ids == r.ids
            && r'.context == r.context && r'.open == r.open && r'.unit == r.unit && r'.measure == r.measure
            && r'.collecting == r.collecting
  {
  }
}
