// Exactly which readings are published, and everything the published artifact says.
module Publication {
  import opened EventTypes
  import opened Digits
  import Dec = Decimals
  import R = Rounding
  import opened Artifacts
  import opened Filing
  import opened Diligence
  import Doc = Documents
  import opened Spellings

  /** The filer's consolidated context of one quarter. */
  function Quarter(start: string, end: string): RawContext {
    RawContext("http://www.sec.gov/CIK", "0000320193", start, end, false)
  }

  /** The unit id the facts must carry: that of the first unit measured in US dollars. */
  ghost predicate DollarUnit(units: seq<(string, string)>, id: string) {
    exists i :: 0 <= i < |units| && units[i] == (id, "iso4217:USD") && forall j :: 0 <= j < i ==> units[j].1 != "iso4217:USD"
  }

  predicate RevenueOf(f: RawFact, context: string) {
    f.name == "us-gaap:RevenueFromContractWithCustomerExcludingAssessedTax" && f.context == context
  }

  /** In millions of dollars, unsigned, in the plain dotted format. */
  predicate InMillions(f: RawFact, unit: string) {
    && f.unit == unit && PyInt(f.scale) == Some(6) && f.decimals == "-6" && f.sign == None
    && f.format == Some("ixt:num-dot-decimal")
  }

  /** The revenue of a context: there is a copy, every copy is in millions of dollars, all copies show the
      same digits, and this is the copy with the least id. */
  ghost predicate Selected(facts: seq<RawFact>, context: string, unit: string, f: RawFact) {
    && f in facts && RevenueOf(f, context)
    && (forall g :: g in facts && RevenueOf(g, context) ==>
          InMillions(g, unit) && Normalized(g) == Normalized(f) && !Less(g.id, f.id))
  }

  lemma UnitForExactly(units: seq<(string, string)>, id: string)
    ensures UnitFor(units, TARGET_UNIT) == Some(id) <==> DollarUnit(units, id)
  {
    if units != [] {
      UnitForExactly(units[1..], id);
      if units[0].1 != TARGET_UNIT {
        if i :| 0 <= i < |units[1..]| && units[1..][i] == (id, "iso4217:USD") && forall j :: 0 <= j < i ==> units[1..][j].1 != "iso4217:USD" {
          assert units[i + 1] == (id, "iso4217:USD");
          assert forall j :: 0 <= j < i + 1 ==> units[j].1 != "iso4217:USD" by {
            assert forall j :: 1 <= j < i + 1 ==> units[j] == units[1..][j - 1];
          }
        }
        if i :| 0 <= i < |units| && units[i] == (id, "iso4217:USD") && forall j :: 0 <= j < i ==> units[j].1 != "iso4217:USD" {
          assert units[1..][i - 1] == (id, "iso4217:USD");
          assert forall j :: 0 <= j < i - 1 ==> units[1..][j] == units[j + 1];
        }
      }
    }
  }

  lemma ExtractExactly(facts: seq<RawFact>, context: string, unit: string, f: RawFact)
    requires UniqueIds(facts)
    ensures Extract(facts, TARGET_CONCEPT, context, unit) == Some(f) <==> Selected(facts, context, unit, f)
  {
    hide Normalized, PyInt;
    var ms := Matching(facts, TARGET_CONCEPT, context);
    assert forall g :: g in ms <==> g in facts && RevenueOf(g, context);
    assert forall g :: g in ms ==> (Acceptable(g, unit) <==> InMillions(g, unit));
    if Selected(facts, context, unit, f) {
      assert f in ms;
      assert ms[0] in ms && Normalized(ms[0]) == Normalized(f);
      forall i | 0 <= i < |ms| ensures Acceptable(ms[i], unit) && Normalized(ms[i]) == Normalized(ms[0]) {
        assert ms[i] in ms;
      }
      LessIsOrder(f.id, Smallest(ms).id);
      SameById(facts, f, Smallest(ms));
    }
    if Extract(facts, TARGET_CONCEPT, context, unit) == Some(f) {
      forall g | g in facts && RevenueOf(g, context)
        ensures InMillions(g, unit) && Normalized(g) == Normalized(f) && !Less(g.id, f.id)
      {
        var i :| 0 <= i < |ms| && ms[i] == g;
        var k :| 0 <= k < |ms| && ms[k] == f;
      }
    }
  }

  lemma SameById(facts: seq<RawFact>, f: RawFact, g: RawFact)
    requires UniqueIds(facts) && f in facts && g in facts
    ensures f.id == g.id ==> f == g
  {
  }

  lemma ContextExactly(contexts: map<string, RawContext>, id: string, end: string, start: string)
    ensures RequireContext(contexts, id, end, start)
            == if id in contexts && contexts[id] == Quarter(start, end) then Some(Quarter(start, end)) else None
  {
  }

  // ----- the outcome --------------------------------------------------------------------

  /** The two quarters are in the filing, and this unit and these facts are what the builder works on. */
  ghost predicate Found(r: Reading, unit: string, current: RawFact, prior: RawFact) {
    && "c-18" in r.contexts && r.contexts["c-18"] == Quarter("2026-03-29", "2026-06-27")
    && "c-19" in r.contexts && r.contexts["c-19"] == Quarter("2025-03-30", "2025-06-28")
    && DollarUnit(r.units, unit)
    && Selected(r.facts, "c-18", unit, current) && Selected(r.facts, "c-19", unit, prior)
  }

  /** Hundredths of a percent by which the first exceeds the second, in the builder's arithmetic. */
  function Increase(current: nat, prior: nat): nat
    requires prior > 0
  {
    ChangeOf(Difference(current, prior), prior)
  }

  /** The artifact, field by field. */
  ghost predicate Says(a: Analysis, inputs: Inputs, currentRaw: RawFact, priorRaw: RawFact, current: nat, prior: nat,
                       sentence: Sentence)
    requires prior > 0
  {
    var change := Dec.Decimal(false, Increase(current, prior), -2);
    && a.schemaVersion == "first-published-analysis/1" && a.cik == "0000320193" && a.asOfDate == inputs.asOfDate
    && a.sourceUrl == inputs.sourceUrl && a.filingDigest == inputs.sha256
    && a.memo.title == "Quarterly net sales year-over-year analysis"
    && a.memo.claims == [Claim("claim-net-sales-yoy-pct", sentence(current, prior, change), ["calc-net-sales-yoy-pct"])]
    && a.manifest.sources == [Source("source-primary-filing", inputs.sourceUrl, inputs.sha256, inputs.filingRef)]
    && a.manifest.facts == [PublishedFact("fact-revenue-c18", "c-18", "2026-03-29", "2026-06-27", current, currentRaw.id),
                            PublishedFact("fact-revenue-c19", "c-19", "2025-03-30", "2025-06-28", prior, priorRaw.id)]
    && a.manifest.links == [Link("claim-net-sales-yoy-pct", "calc-net-sales-yoy-pct")]
    && |a.manifest.calculations| == 1
    && var c := a.manifest.calculations[0];
       && c.id == "calc-net-sales-yoy-pct" && c.operation == "year_over_year_percent_change"
       && c.inputs == ["fact-revenue-c18", "fact-revenue-c19"] && c.formula == "(current - prior) / prior \U{d7} 100"
       && c.numerator == Difference(current, prior) && c.denominator == Dec.Decimal(false, prior, 0)
       && c.roundingRule == "ROUND_HALF_UP" && c.outputScale == 2 && c.unit == "percent" && c.value == change
  }

  function PublishedFact(id: string, context: string, start: string, end: string, value: nat, element: string): Fact {
    Fact(id, "us-gaap:RevenueFromContractWithCustomerExcludingAssessedTax", context, Period(start, end), "iso4217:USD", 6,
         Dec.Decimal(false, value, 0), "source-primary-filing", "#" + element)
  }

  lemma CalculateExactly(inputs: Inputs, currentRaw: RawFact, priorRaw: RawFact, sentence: Sentence)
    requires RevenueOf(currentRaw, "c-18") && RevenueOf(priorRaw, "c-19")
    ensures var built := Calculate(inputs, Quarter("2026-03-29", "2026-06-27"), Quarter("2025-03-30", "2025-06-28"),
                                   currentRaw, priorRaw, sentence);
            var current, prior := DisplayValue(currentRaw.display), DisplayValue(priorRaw.display);
            if current == None || prior == None then built == Refused
            else if prior.value == 0 then built == ArithmeticFault
            else if Increase(current.value, prior.value) >= Pow10(28) then built == ArithmeticFault
            else if current.value < prior.value || Increase(current.value, prior.value) == 0 then built == Refused
            else built.Published? && Says(built.analysis, inputs, currentRaw, priorRaw, current.value, prior.value, sentence)
  {
    hide DisplayValue, Difference, ChangeOf, Pow10;
    var current, prior := DisplayValue(currentRaw.display), DisplayValue(priorRaw.display);
    if current.Some? && prior.Some? {
      DifferenceIsNear(current.value, prior.value);
    }
  }

  /** A filing is published if and only if it reads, both quarters, the unit and both facts are found in it,
      both values are numbers, and the second is exceeded, visibly in hundredths of a percent and within
      28 digits. A zero prior or an oversized result is a fault of the arithmetic, everything else a
      refusal; and the artifact says exactly this. */
  lemma PublishedExactly(tokens: seq<Token>, inputs: Inputs, sentence: Sentence)
    ensures var built := Build(tokens, inputs, sentence);
            match TakeAll(FRESH, tokens)
            case None => built == Refused
            case Some(r) =>
              if !exists unit, f, g :: Found(r, unit, f, g) then built == Refused
              else
                forall unit, f, g :: Found(r, unit, f, g) ==>
                  var current, prior := DisplayValue(f.display), DisplayValue(g.display);
                  if current == None || prior == None then built == Refused
                  else if prior.value == 0 || Increase(current.value, prior.value) >= Pow10(28) then built == ArithmeticFault
                  else if current.value < prior.value || Increase(current.value, prior.value) == 0 then built == Refused
                  else built.Published? && Says(built.analysis, inputs, f, g, current.value, prior.value, sentence)
  {
    hide TakeAll, Extract, Calculate, RequireContext, UnitFor, Pow10, DollarUnit, Selected, Says, DisplayValue, Increase;
    if TakeAll(FRESH, tokens).Some? {
      AcceptedStream(tokens);
      FoundExactly(TakeAll(FRESH, tokens).value, inputs, sentence);
      forall f: RawFact, g: RawFact | RevenueOf(f, "c-18") && RevenueOf(g, "c-19")
        ensures var built := Calculate(inputs, Quarter("2026-03-29", "2026-06-27"), Quarter("2025-03-30", "2025-06-28"), f, g, sentence);
                var current, prior := DisplayValue(f.display), DisplayValue(g.display);
                if current == None || prior == None then built == Refused
                else if prior.value == 0 || Increase(current.value, prior.value) >= Pow10(28) then built == ArithmeticFault
                else if current.value < prior.value || Increase(current.value, prior.value) == 0 then built == Refused
                else built.Published? && Says(built.analysis, inputs, f, g, current.value, prior.value, sentence)
      {
        CalculateExactly(inputs, f, g, sentence);
      }
    }
  }

  lemma FoundExactly(r: Reading, inputs: Inputs, sentence: Sentence)
    requires UniqueIds(r.facts)
    ensures (!exists unit, f, g :: Found(r, unit, f, g)) ==> BuildFrom(r, inputs, sentence) == Refused
    ensures forall unit, f, g :: Found(r, unit, f, g) ==>
              RevenueOf(f, "c-18") && RevenueOf(g, "c-19")
              && BuildFrom(r, inputs, sentence)
                 == Calculate(inputs, Quarter("2026-03-29", "2026-06-27"), Quarter("2025-03-30", "2025-06-28"), f, g, sentence)
  {
    hide Extract, Calculate, RequireContext, UnitFor, DollarUnit;
    ContextExactly(r.contexts, CURRENT, "2026-06-27", "2026-03-29");
    ContextExactly(r.contexts, PRIOR, "2025-06-28", "2025-03-30");
    forall unit, f, g | Found(r, unit, f, g)
      ensures BuildFrom(r, inputs, sentence)
              == Calculate(inputs, Quarter("2026-03-29", "2026-06-27"), Quarter("2025-03-30", "2025-06-28"), f, g, sentence)
    {
      UnitForExactly(r.units, unit);
      ExtractExactly(r.facts, CURRENT, unit, f);
      ExtractExactly(r.facts, PRIOR, unit, g);
    }
    if BuildFrom(r, inputs, sentence) != Refused {
      var unit := UnitFor(r.units, TARGET_UNIT).value;
      var f, g := Extract(r.facts, TARGET_CONCEPT, CURRENT, unit).value, Extract(r.facts, TARGET_CONCEPT, PRIOR, unit).value;
      UnitForExactly(r.units, unit);
      ExtractExactly(r.facts, CURRENT, unit, f);
      ExtractExactly(r.facts, PRIOR, unit, g);
      assert Found(r, unit, f, g);
    }
  }

  // ----- the values ---------------------------------------------------------------------

  /** Everything but the commas. */
  lemma {:induction false} CommasApart(a: string, b: string)
    ensures WithoutCommas(a + b) == WithoutCommas(a) + WithoutCommas(b)
  {
    if b == "" {
      assert a + b == a;
    } else {
      CommasApart(a, b[..|b| - 1]);
      assert (a + b)[..|a + b| - 1] == a + b[..|b| - 1];
    }
  }

  lemma {:induction false} NoCommas(s: string)
    requires ',' !in s
    ensures WithoutCommas(s) == s
  {
    if s != "" {
      NoCommas(s[..|s| - 1]);
      assert s == s[..|s| - 1] + [s[|s| - 1]];
    }
  }

  /** What a display value may be written as: digits in groups, commas anywhere between or around them. */
  function Spelled(groups: seq<string>): string {
    if groups == [] then "" else Spelled(groups[..|groups| - 1]) + "," + groups[|groups| - 1]
  }

  function Joined(groups: seq<string>): string {
    if groups == [] then "" else Joined(groups[..|groups| - 1]) + groups[|groups| - 1]
  }

  predicate DigitGroups(groups: seq<string>) {
    forall i :: 0 <= i < |groups| ==> forall k :: 0 <= k < |groups[i]| ==> IsDigit(groups[i][k])
  }

  lemma {:induction false} SpelledJoins(groups: seq<string>)
    requires DigitGroups(groups)
    ensures WithoutCommas(Spelled(groups)) == Joined(groups)
    ensures forall k :: 0 <= k < |Spelled(groups)| ==> IsDigit(Spelled(groups)[k]) || Spelled(groups)[k] == ','
  {
    if groups != [] {
      var k := |groups| - 1;
      SpelledJoins(groups[..k]);
      CommasApart(Spelled(groups[..k]) + ",", groups[k]);
      CommasApart(Spelled(groups[..k]), ",");
      NoCommas(groups[k]);
      assert WithoutCommas(",") == "" by {
        assert ","[..0] == "" && WithoutCommas("") == "";
      }
    }
  }

  lemma SpelledValue(first: string, groups: seq<string>, n: nat)
    requires DigitGroups([first] + groups) && first + Joined(groups) == Numeral(n)
    ensures DigitsAndCommas(first + Spelled(groups)) && WithoutCommas(first + Spelled(groups)) == Numeral(n)
  {
    hide Numeral, Spelled, Joined, WithoutCommas;
    assert DigitGroups(groups) by {
      assert forall i :: 0 <= i < |groups| ==> groups[i] == ([first] + groups)[i + 1];
    }
    assert forall k :: 0 <= k < |first| ==> IsDigit(([first] + groups)[0][k]);
    SpelledJoins(groups);
    CommasApart(first, Spelled(groups));
    assert ',' !in first;
    NoCommas(first);
  }

  lemma DigitIsTight(s: string)
    requires s != "" ==> IsDigit(s[0]) && IsDigit(s[|s| - 1])
    ensures Doc.Tight(s)
  {
  }

  lemma EndsOf(first: string, last: string, core: string)
    requires first != "" && last != "" && |core| > 0 && core[0] == first[0] && core[|core| - 1] == last[|last| - 1]
    requires DigitGroups([first]) && DigitGroups([last])
    ensures Doc.Tight(core)
  {
    assert IsDigit([first][0][0]) && IsDigit([last][0][|last| - 1]);
    DigitIsTight(core);
  }

  lemma PartsAreDigits(first: string, groups: seq<string>)
    requires DigitGroups([first] + groups)
    ensures DigitGroups([first])
    ensures groups != [] ==> DigitGroups([groups[|groups| - 1]])
  {
    hide IsDigit;
    assert ([first] + groups)[0] == first;
    assert groups != [] ==> ([first] + groups)[|groups|] == groups[|groups| - 1];
  }

  lemma SpelledIsTight(first: string, groups: seq<string>)
    requires DigitGroups([first] + groups) && first != ""
    requires groups != [] ==> groups[|groups| - 1] != ""
    ensures Doc.Tight(first + Spelled(groups))
  {
    hide Spelled, Doc.Tight, IsDigit, DigitGroups;
    LastOfSpelled(groups);
    PartsAreDigits(first, groups);
    EndsOf(first, if groups == [] then first else groups[|groups| - 1], first + Spelled(groups));
  }

  /** A display value with blanks around it and commas within it is the number its digits spell. */
  lemma DisplayReads(left: string, first: string, groups: seq<string>, right: string, n: nat)
    requires Doc.Blank(left) && Doc.Blank(right) && DigitGroups([first] + groups)
    requires first != "" && first + Joined(groups) == Numeral(n)
    requires groups != [] ==> groups[|groups| - 1] != ""
    ensures DisplayValue(left + (first + Spelled(groups)) + right) == Some(n)
  {
    hide Strip, Numeral, Value, Spelled, Joined, DigitGroups, DigitsAndCommas, WithoutCommas, Doc.Tight, Doc.Blank;
    SpelledValue(first, groups, n);
    SpelledIsTight(first, groups);
    Doc.StripExactly(left, first + Spelled(groups), right);
    ValueOfNumeral(n);
  }

  lemma LastOfSpelled(groups: seq<string>)
    requires groups != [] ==> groups[|groups| - 1] != ""
    ensures groups != [] ==> Spelled(groups) != "" && Spelled(groups)[|Spelled(groups)| - 1] == groups[|groups| - 1][|groups[|groups| - 1]| - 1]
    ensures groups == [] ==> Spelled(groups) == ""
  {
  }

  /** Anything but digits and commas, blanks around it aside, is no number; nor are commas alone. */
  lemma DisplayRefuses(left: string, core: string, right: string)
    requires Doc.Blank(left) && Doc.Blank(right) && Doc.Tight(core)
    requires (exists k :: 0 <= k < |core| && !IsDigit(core[k]) && core[k] != ',') || forall k :: 0 <= k < |core| ==> core[k] == ','
    ensures DisplayValue(left + core + right) == None
  {
    hide Strip, Value;
    Doc.StripExactly(left, core, right);
    if forall k :: 0 <= k < |core| ==> core[k] == ',' {
      OnlyCommas(core);
    }
  }

  lemma {:induction false} OnlyCommas(s: string)
    requires forall k :: 0 <= k < |s| ==> s[k] == ','
    ensures WithoutCommas(s) == ""
  {
    if s != "" {
      OnlyCommas(s[..|s| - 1]);
    }
  }

  // ----- the ordinary filing ------------------------------------------------------------

  function Shown(text: string): Doc.Padded {
    Doc.Padded("", text, "")
  }

  function QuarterItem(id: string, start: string, end: string): Doc.Item {
    Doc.ContextItem(id, "http://www.sec.gov/CIK", Shown("0000320193"), false, Shown(start), Shown(end))
  }

  function RevenueItem(id: string, context: string, millions: nat): Doc.Item {
    Doc.FactItem(id, "us-gaap:RevenueFromContractWithCustomerExcludingAssessedTax", context, "usd", "-6", "6",
                 Shown(Numeral(millions)), None, Some("ixt:num-dot-decimal"))
  }

  /** The two quarters, the unit, and the two revenues in millions of dollars. */
  function Report(current: nat, prior: nat): seq<Doc.Item> {
    [QuarterItem("c-18", "2026-03-29", "2026-06-27"), QuarterItem("c-19", "2025-03-30", "2025-06-28"),
     Doc.UnitItem("usd", Shown("iso4217:USD")), RevenueItem("f-1", "c-18", current), RevenueItem("f-2", "c-19", prior)]
  }

  lemma Snoc(items: seq<Doc.Item>, item: Doc.Item)
    ensures var all := items + [item];
            && Doc.ContextsOf(all)
               == (if item.ContextItem? then Doc.ContextsOf(items)[item.id := Doc.ContextOf(item)] else Doc.ContextsOf(items))
            && Doc.UnitsOf(all) == Doc.UnitsOf(items) + (if item.UnitItem? then [(item.id, item.measure.text)] else [])
            && Doc.FactsOf(all) == Doc.FactsOf(items) + (if item.FactItem? then [Doc.RawOf(item)] else [])
  {
    assert (items + [item])[..|items|] == items;
  }

  /** Five elements in the order of the report. */
  lemma FiveHeld(a: Doc.Item, b: Doc.Item, u: Doc.Item, f: Doc.Item, g: Doc.Item)
    requires a.ContextItem? && b.ContextItem? && u.UnitItem? && f.FactItem? && g.FactItem?
    ensures Doc.ContextsOf([a, b, u, f, g]) == map[][a.id := Doc.ContextOf(a)][b.id := Doc.ContextOf(b)]
    ensures Doc.UnitsOf([a, b, u, f, g]) == [(u.id, u.measure.text)]
    ensures Doc.FactsOf([a, b, u, f, g]) == [Doc.RawOf(f), Doc.RawOf(g)]
  {
    assert Doc.ContextsOf([]) == map[] && Doc.UnitsOf([]) == [] && Doc.FactsOf([]) == [];
    hide Doc.ContextsOf, Doc.UnitsOf, Doc.FactsOf, Doc.RawOf, Doc.ContextOf;
    Snoc([], a);
    Snoc([a], b);
    Snoc([a, b], u);
    Snoc([a, b, u], f);
    Snoc([a, b, u, f], g);
    assert [] + [a] == [a] && [a] + [b] == [a, b] && [a, b] + [u] == [a, b, u] && [a, b, u] + [f] == [a, b, u, f];
    assert [a, b, u, f] + [g] == [a, b, u, f, g];
  }

  lemma NumeralIsTight(n: nat)
    ensures Doc.Tight(Numeral(n))
  {
    hide Numeral;
  }

  lemma ItemsAreGood(current: nat, prior: nat)
    ensures Doc.Good(RevenueItem("f-1", "c-18", current)) && Doc.Good(RevenueItem("f-2", "c-19", prior))
    ensures Doc.Good(QuarterItem("c-18", "2026-03-29", "2026-06-27")) && Doc.Good(QuarterItem("c-19", "2025-03-30", "2025-06-28"))
    ensures Doc.Good(Doc.UnitItem("usd", Shown("iso4217:USD")))
  {
    hide Numeral, Doc.Tight;
    assert FactId("f-1") && FactId("f-2");
    NumeralIsTight(current);
    NumeralIsTight(prior);
    TextsAreTight();
  }

  lemma TextsAreTight()
    ensures Doc.Tight("0000320193") && Doc.Tight("2026-03-29") && Doc.Tight("2026-06-27") && Doc.Tight("2025-03-30") && Doc.Tight("2025-06-28")
    ensures Doc.Tight("iso4217:USD")
  {
    assert !IsSpace('i') && !IsSpace('D');
    DigitIsTight("0000320193");
    DigitIsTight("2026-03-29");
    DigitIsTight("2026-06-27");
    DigitIsTight("2025-03-30");
    DigitIsTight("2025-06-28");
    hide Doc.Tight, IsDigit;
  }

  lemma ReportIsHeld(current: nat, prior: nat)
    ensures var items := Report(current, prior);
            && (forall i :: 0 <= i < |items| ==> Doc.Good(items[i])) && Doc.Distinct(items)
            && Doc.ContextsOf(items) == map["c-18" := Quarter("2026-03-29", "2026-06-27"), "c-19" := Quarter("2025-03-30", "2025-06-28")]
            && Doc.UnitsOf(items) == [("usd", "iso4217:USD")]
            && Doc.FactsOf(items) == [Revenue("f-1", "c-18", current), Revenue("f-2", "c-19", prior)]
  {
    hide Numeral, Doc.Good, Doc.ContextsOf, Doc.UnitsOf, Doc.FactsOf;
    ItemsAreGood(current, prior);
    FiveHeld(QuarterItem("c-18", "2026-03-29", "2026-06-27"), QuarterItem("c-19", "2025-03-30", "2025-06-28"),
             Doc.UnitItem("usd", Shown("iso4217:USD")), RevenueItem("f-1", "c-18", current), RevenueItem("f-2", "c-19", prior));
  }

  function Revenue(id: string, context: string, millions: nat): RawFact {
    RawFact(id, "us-gaap:RevenueFromContractWithCustomerExcludingAssessedTax", context, "usd", "-6", "6", Numeral(millions), None,
            Some("ixt:num-dot-decimal"))
  }

  lemma ReportReads(current: nat, prior: nat)
    ensures var got := TakeAll(FRESH, Doc.AllTokens(Report(current, prior)));
            && got.Some?
            && got.value.contexts == map["c-18" := Quarter("2026-03-29", "2026-06-27"), "c-19" := Quarter("2025-03-30", "2025-06-28")]
            && got.value.units == [("usd", "iso4217:USD")]
            && got.value.facts == [Revenue("f-1", "c-18", current), Revenue("f-2", "c-19", prior)]
  {
    hide TakeAll, Report, Quarter, Revenue, Doc.AllTokens, Doc.ContextsOf, Doc.UnitsOf, Doc.FactsOf, Doc.IdsOf, Doc.Good, Doc.Distinct;
    ReportIsHeld(current, prior);
    Doc.DocumentReads(Report(current, prior));
  }

  lemma PlainDisplay(n: nat)
    ensures DisplayValue(Numeral(n)) == Some(n)
  {
    assert Numeral(n) == "" + (Numeral(n) + "") + "";
    assert Spelled([]) == "" && Joined([]) == "" && Numeral(n) + "" == Numeral(n);
    assert [Numeral(n)] + [] == [Numeral(n)];
    hide Numeral, DisplayValue, Spelled, Joined;
    DisplayReads("", Numeral(n), [], "", n);
  }

  lemma SixReads()
    ensures PyInt("6") == Some(6)
  {
    assert ["6"][..0] == [] && "" + "6" == "6" && Flat(["6"]) == "6" && Separated(["6"], '_') == "6";
    assert "6"[..0] == "" && Value("6") == 6;
    assert "" + ("" + "6") + "" == "6";
    hide PyInt, Flat, Separated, Value;
    IntReads("", "", ["6"], "");
  }

  lemma RevenueIsSelected(facts: seq<RawFact>, context: string, f: RawFact, millions: nat)
    requires f in facts && f == Revenue(f.id, context, millions)
    requires forall g :: g in facts && g != f ==> g.context != context
    ensures Selected(facts, context, "usd", f)
  {
    hide Numeral, PyInt, Normalized, Less;
    SixReads();
    LessIsOrder(f.id, f.id);
  }

  lemma ReportIsFound(r: Reading, current: nat, prior: nat)
    requires r.contexts == map["c-18" := Quarter("2026-03-29", "2026-06-27"), "c-19" := Quarter("2025-03-30", "2025-06-28")]
    requires r.units == [("usd", "iso4217:USD")]
    requires r.facts == [Revenue("f-1", "c-18", current), Revenue("f-2", "c-19", prior)]
    ensures Found(r, "usd", r.facts[0], r.facts[1])
  {
    hide Numeral, Selected;
    RevenueIsSelected(r.facts, "c-18", r.facts[0], current);
    RevenueIsSelected(r.facts, "c-19", r.facts[1], prior);
    assert r.units[0] == ("usd", "iso4217:USD");
  }

  lemma IncreaseIsFloor(current: nat, prior: nat)
    requires 0 < prior < current < R.BOUND
    ensures Increase(current, prior) == (20000 * (current - prior) + prior) / (2 * prior)
  {
    R.PowValues();
    BoundIsShort();
    hide Pow10, R.Hundredths, Difference;
    DifferenceIsNear(current, prior);
    R.DoubleRoundingHarmless(current - prior, prior);
  }

  lemma BoundIsShort()
    ensures 30000 * R.BOUND < Pow10(28)
  {
    R.PowValues();
    PowSum(23, 5);
  }

  lemma GrowthFits(a: nat, b: nat)
    requires a >= b > 0
    ensures 0 < a / b <= a
  {
    AtLeast(a / b, b);
  }

  lemma AtLeast(q: nat, b: nat)
    requires b > 0
    ensures q * b >= q
  {
  }

  /** The ordinary filing is published whenever sales grew by at least a two-hundredth of a percent, and the
      published change is the growth in hundredths of a percent, rounded half up. */
  lemma ReportIsPublished(current: nat, prior: nat, inputs: Inputs, sentence: Sentence)
    requires 0 < prior < current < R.BOUND && 20000 * (current - prior) >= prior
    ensures var built := Build(Doc.AllTokens(Report(current, prior)), inputs, sentence);
            built.Published?
            && Says(built.analysis, inputs, Revenue("f-1", "c-18", current), Revenue("f-2", "c-19", prior), current, prior, sentence)
            && Increase(current, prior) == (20000 * (current - prior) + prior) / (2 * prior)
  {
    hide Build, TakeAll, DisplayValue, Increase, Pow10, Report, Found, Doc.AllTokens, Says;
    var tokens := Doc.AllTokens(Report(current, prior));
    ReportReads(current, prior);
    PlainDisplay(current);
    PlainDisplay(prior);
    IncreaseIsFloor(current, prior);
    GrowthFits(20000 * (current - prior) + prior, 2 * prior);
    BoundIsShort();
    ReportIsFound(TakeAll(FRESH, tokens).value, current, prior);
    PublishedExactly(tokens, inputs, sentence);
  }
}
