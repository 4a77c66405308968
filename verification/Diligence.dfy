// build_published_analysis: from a reader's collections to the artifact, and what every artifact
// it builds is.
module Diligence {
  import opened EventTypes
  import opened Digits
  import Dec = Decimals
  import R = Rounding
  import opened Artifacts
  import opened Filing

  const INT_DIGITS: nat := 4300
  const TARGET_UNIT: string := "iso4217:USD"
  const TARGET_SCALE: int := 6
  const CIK_SCHEME: string := "http://www.sec.gov/CIK"
  const CURRENT: string := "c-18"
  const PRIOR: string := "c-19"
  const SOURCE_ID: string := "source-primary-filing"
  const CURRENT_FACT_ID: string := "fact-revenue-c18"
  const PRIOR_FACT_ID: string := "fact-revenue-c19"
  const CALC_ID: string := "calc-net-sales-yoy-pct"
  const CLAIM_ID: string := "claim-net-sales-yoy-pct"

  // ----- selecting one fact -------------------------------------------------------------

  /** Digits, with single underscores allowed between them. */
  predicate Grouped(s: string) {
    && s != "" && IsDigit(s[0]) && IsDigit(s[|s| - 1])
    && (forall i :: 0 <= i < |s| ==> IsDigit(s[i]) || s[i] == '_')
    && (forall i :: 0 <= i < |s| - 1 ==> s[i] != '_' || s[i + 1] != '_')
  }

  function Ungrouped(s: string): (r: string)
    requires forall i :: 0 <= i < |s| ==> IsDigit(s[i]) || s[i] == '_'
    ensures forall i :: 0 <= i < |r| ==> IsDigit(r[i])
  {
    if s == "" then "" else Ungrouped(s[..|s| - 1]) + if s[|s| - 1] == '_' then "" else [s[|s| - 1]]
  }

  /** int(s), None being its ValueError. */
  function PyInt(s: string): Option<int> {
    var body := Dec.Unsigned(Strip(s));
    if !Grouped(body) || |Ungrouped(body)| > INT_DIGITS then None
    else if Dec.Minus(Strip(s)) then Some(0 - Value(Ungrouped(body)))
    else Some(Value(Ungrouped(body)))
  }

  predicate Wanted(f: RawFact, concept: string, context: string) {
    f.name == concept && f.context == context
  }

  function Matching(facts: seq<RawFact>, concept: string, context: string): (ms: seq<RawFact>)
    ensures forall f :: f in ms <==> f in facts && Wanted(f, concept, context)
  {
    if facts == [] then []
    else
      var f := facts[|facts| - 1];
      Matching(facts[..|facts| - 1], concept, context) + if Wanted(f, concept, context) then [f] else []
  }

  predicate Acceptable(f: RawFact, unit: string) {
    f.unit == unit && PyInt(f.scale) == Some(TARGET_SCALE) && f.decimals == "-6" && f.sign.None?
    && f.format == Some("ixt:num-dot-decimal")
  }

  function Normalized(f: RawFact): string {
    WithoutCommas(Strip(f.display))
  }

  /** min by id, the first of equals. */
  function Smallest(ms: seq<RawFact>): (f: RawFact)
    requires ms != []
    ensures f in ms && forall g :: g in ms ==> !Less(g.id, f.id)
  {
    if |ms| == 1 then
      LessIsOrder(ms[0].id, ms[0].id);
      ms[0]
    else
      var before, last := Smallest(ms[..|ms| - 1]), ms[|ms| - 1];
      assert ms == ms[..|ms| - 1] + [last];
      LessIsOrder(before.id, last.id);
      SmallestStep(ms[..|ms| - 1], before, last);
      if Less(last.id, before.id) then last else before
  }

  lemma SmallestStep(ms: seq<RawFact>, before: RawFact, last: RawFact)
    requires forall g :: g in ms ==> !Less(g.id, before.id)
    ensures Less(last.id, before.id) ==> forall g :: g in ms ==> !Less(g.id, last.id)
    ensures !Less(last.id, last.id)
  {
    LessIsOrder(last.id, last.id);
    forall g | g in ms && Less(last.id, before.id) && Less(g.id, last.id) ensures false {
      LessTransitive(g.id, last.id, before.id);
    }
  }

  /** _extract_fact: None when the fact is absent, unacceptable in any copy, or its copies conflict. */
  function Extract(facts: seq<RawFact>, concept: string, context: string, unit: string): Option<RawFact> {
    var ms := Matching(facts, concept, context);
    if ms == [] then None
    else if exists i :: 0 <= i < |ms| && !Acceptable(ms[i], unit) then None
    else if exists i :: 0 <= i < |ms| && Normalized(ms[i]) != Normalized(ms[0]) then None
    else Some(Smallest(ms))
  }

  lemma SmallestSnoc(ms: seq<RawFact>, i: nat)
    requires 1 <= i < |ms|
    ensures var best := Smallest(ms[..i]); Smallest(ms[..i + 1]) == if Less(ms[i].id, best.id) then ms[i] else best
  {
    assert ms[..i + 1][..i] == ms[..i];
  }

  /** The selection with its loops: over the copies to judge each, over their values, and for the
      smallest id. */
  method ExtractFact(facts: seq<RawFact>, concept: string, context: string, unit: string) returns (fact: Option<RawFact>)
    ensures fact == Extract(facts, concept, context, unit)
  {
    hide Matching, Acceptable, Normalized, Smallest, Less;
    var ms := Matching(facts, concept, context);
    if ms == [] {
      return None;
    }
    for i := 0 to |ms|
      invariant forall k :: 0 <= k < i ==> Acceptable(ms[k], unit)
    {
      if !Acceptable(ms[i], unit) {
        return None;
      }
    }
    var best := ms[0];
    assert best == Smallest(ms[..1]) by {
      assert Smallest(ms[..1]) in ms[..1];
    }
    for i := 1 to |ms|
      invariant forall k :: 0 <= k < i ==> Normalized(ms[k]) == Normalized(ms[0])
      invariant best == Smallest(ms[..i])
    {
      if Normalized(ms[i]) != Normalized(ms[0]) {
        return None;
      }
      SmallestSnoc(ms, i);
      if Less(ms[i].id, best.id) {
        best := ms[i];
      }
    }
    assert ms[..|ms|] == ms;
    fact := Some(best);
  }

  ghost predicate SameFacts(a: seq<RawFact>, b: seq<RawFact>) {
    forall f :: f in a <==> f in b
  }

  /** The selected fact does not depend on the order in which the filing lists its facts. */
  lemma ExtractIgnoresOrder(a: seq<RawFact>, b: seq<RawFact>, concept: string, context: string, unit: string)
    requires multiset(a) == multiset(b) && UniqueIds(a)
    ensures Extract(a, concept, context, unit) == Extract(b, concept, context, unit)
  {
    hide Acceptable, Normalized;
    forall f ensures f in a <==> f in b {
      assert f in a <==> f in multiset(a);
    }
    var ms, ns := Matching(a, concept, context), Matching(b, concept, context);
    assert SameFacts(ms, ns);
    assert ms != [] ==> ms[0] in ns;
    assert ns != [] ==> ns[0] in ms;
    SameJudgement(ms, ns, unit);
    SameJudgement(ns, ms, unit);
    if ms != [] {
      var f, g := Smallest(ms), Smallest(ns);
      LessIsOrder(f.id, g.id);
      assert f in a && g in a && f.id == g.id;
    }
  }

  lemma SameJudgement(ms: seq<RawFact>, ns: seq<RawFact>, unit: string)
    requires SameFacts(ms, ns)
    ensures (exists i :: 0 <= i < |ms| && !Acceptable(ms[i], unit)) ==> exists i :: 0 <= i < |ns| && !Acceptable(ns[i], unit)
    ensures ms != [] && (exists i :: 0 <= i < |ms| && Normalized(ms[i]) != Normalized(ms[0])) ==>
              ns != [] && exists i :: 0 <= i < |ns| && Normalized(ns[i]) != Normalized(ns[0])
  {
    hide Acceptable, Normalized;
    if i :| 0 <= i < |ms| && !Acceptable(ms[i], unit) {
      assert ms[i] in ns;
    }
    if ms != [] {
      if i :| 0 <= i < |ms| && Normalized(ms[i]) != Normalized(ms[0]) {
        assert ms[i] in ns && ms[0] in ns;
      }
    }
  }

  // ----- contexts, units and values -----------------------------------------------------

  /** _require_context: the consolidated context of the canonical filer and the expected period. The
      dates it writes back are the strings it has just compared. */
  function RequireContext(contexts: map<string, RawContext>, id: string, end: string, start: string): Option<RawContext> {
    if id !in contexts then None
    else
      var c := contexts[id];
      if c.scheme != CIK_SCHEME || c.cik != CANONICAL_CIK || c.segmented || c.end != end || c.start != start then None
      else Some(c.(end := end, start := start))
  }

  /** The first unit, in insertion order, with the measure. */
  method FindUnit(units: seq<(string, string)>, measure: string) returns (id: Option<string>)
    ensures id == UnitFor(units, measure)
  {
    for i := 0 to |units|
      invariant UnitFor(units, measure) == UnitFor(units[i..], measure)
    {
      if units[i].1 == measure {
        return Some(units[i].0);
      }
    }
    id := None;
  }

  function UnitFor(units: seq<(string, string)>, measure: string): Option<string> {
    if units == [] then None else if units[0].1 == measure then Some(units[0].0) else UnitFor(units[1..], measure)
  }

  predicate DigitsAndCommas(s: string) {
    s != "" && forall i :: 0 <= i < |s| ==> IsDigit(s[i]) || s[i] == ','
  }

  lemma {:induction false} CommasLeaveDigits(s: string)
    requires forall i :: 0 <= i < |s| ==> IsDigit(s[i]) || s[i] == ','
    ensures forall i :: 0 <= i < |WithoutCommas(s)| ==> IsDigit(WithoutCommas(s)[i])
  {
    if s != "" {
      CommasLeaveDigits(s[..|s| - 1]);
    }
  }

  /** _parse_display_value: digits and commas, at least one digit. */
  function DisplayValue(display: string): Option<nat> {
    var stripped := Strip(display);
    if !DigitsAndCommas(stripped) then None
    else
      CommasLeaveDigits(stripped);
      if WithoutCommas(stripped) == "" then None else Some(Value(WithoutCommas(stripped)))
  }

  // ----- the calculation ----------------------------------------------------------------

  /** A difference in the 28-digit context: exact while it fits, otherwise rounded half-even. */
  function Difference(current: nat, prior: nat): Dec.Decimal {
    var negative := current < prior;
    var n := if negative then prior - current else current - prior;
    if n < Pow10(R.PRECISION) then Dec.Decimal(negative, n, 0)
    else
      var k := |Numeral(n)| - R.PRECISION;
      if k <= 0 then Dec.Decimal(negative, n, 0)
      else
        var c := R.HalfEven(n, Pow10(k));
        if c == Pow10(R.PRECISION) then Dec.Decimal(negative, Pow10(R.PRECISION - 1), k + 1) else Dec.Decimal(negative, c, k)
  }

  function Magnitude(d: Dec.Decimal): nat {
    if d.exponent >= 0 then d.digits * Pow10(d.exponent) else d.digits
  }

  /** Hundredths of a percent, in magnitude. */
  function ChangeOf(numerator: Dec.Decimal, prior: nat): nat
    requires prior > 0
  {
    if Magnitude(numerator) == 0 then 0 else R.Hundredths(Magnitude(numerator), prior)
  }

  datatype Built = Published(analysis: Analysis) | Refused | ArithmeticFault

  datatype Inputs = Inputs(sha256: string, sourceUrl: string, asOfDate: string, filingRef: string)

  type Sentence = (nat, nat, Dec.Decimal) -> string

  function FactFor(id: string, raw: RawFact, c: RawContext, value: nat): Fact {
    Fact(id, raw.name, raw.context, Period(c.start, c.end), TARGET_UNIT, TARGET_SCALE, Dec.Decimal(false, value, 0),
         SOURCE_ID, "#" + raw.id)
  }

  function Assemble(inputs: Inputs, currentContext: RawContext, priorContext: RawContext, currentRaw: RawFact,
                    priorRaw: RawFact, current: nat, prior: nat, change: nat, sentence: Sentence): Analysis
  {
    var result := Dec.Decimal(false, change, -2);
    Analysis(SCHEMA_VERSION, CANONICAL_CIK, inputs.asOfDate, inputs.sourceUrl, inputs.sha256,
             Memo("Quarterly net sales year-over-year analysis",
                  [Claim(CLAIM_ID, sentence(current, prior, result), [CALC_ID])]),
             Manifest([Source(SOURCE_ID, inputs.sourceUrl, inputs.sha256, inputs.filingRef)],
                      [FactFor(CURRENT_FACT_ID, currentRaw, currentContext, current),
                       FactFor(PRIOR_FACT_ID, priorRaw, priorContext, prior)],
                      [Calculation(CALC_ID, "year_over_year_percent_change", [CURRENT_FACT_ID, PRIOR_FACT_ID],
                                   "(current - prior) / prior \U{d7} 100", Difference(current, prior),
                                   Dec.Decimal(false, prior, 0), "ROUND_HALF_UP", 2, "percent", result)],
                      [Link(CLAIM_ID, CALC_ID)]))
  }

  /** From two selected facts: a zero prior and a quantized result of more than 28 digits are faults
      of the arithmetic, and only an increase has a sentence. */
  function Calculate(inputs: Inputs, currentContext: RawContext, priorContext: RawContext, currentRaw: RawFact,
                     priorRaw: RawFact, sentence: Sentence): Built
  {
    match (DisplayValue(currentRaw.display), DisplayValue(priorRaw.display))
    case (Some(current), Some(prior)) =>
      if prior == 0 then ArithmeticFault
      else
        var numerator := Difference(current, prior);
        var change := ChangeOf(numerator, prior);
        if change >= Pow10(R.PRECISION) then ArithmeticFault
        else if numerator.negative || change == 0 then Refused
        else Published(Assemble(inputs, currentContext, priorContext, currentRaw, priorRaw, current, prior, change, sentence))
    case _ => Refused
  }

  function BuildFrom(r: Reading, inputs: Inputs, sentence: Sentence): Built {
    match (RequireContext(r.contexts, CURRENT, "2026-06-27", "2026-03-29"),
           RequireContext(r.contexts, PRIOR, "2025-06-28", "2025-03-30"), UnitFor(r.units, TARGET_UNIT))
    case (Some(currentContext), Some(priorContext), Some(unit)) =>
      (match (Extract(r.facts, TARGET_CONCEPT, CURRENT, unit), Extract(r.facts, TARGET_CONCEPT, PRIOR, unit))
       case (Some(currentRaw), Some(priorRaw)) =>
         Calculate(inputs, currentContext, priorContext, currentRaw, priorRaw, sentence)
       case _ => Refused)
    case _ => Refused
  }

  function Build(tokens: seq<Token>, inputs: Inputs, sentence: Sentence): Built {
    match TakeAll(FRESH, tokens)
    case None => Refused
    case Some(r) => BuildFrom(r, inputs, sentence)
  }

  /** build_published_analysis past the decoding: read the whole filing, then select and calculate. */
  method BuildPublishedAnalysis(tokens: seq<Token>, inputs: Inputs, sentence: Sentence) returns (built: Built)
    ensures built == Build(tokens, inputs, sentence)
  {
    hide Extract, Calculate, TakeAll, RequireContext, UnitFor;
    var reader := new FilingReader();
    var admitted := reader.Feed(tokens);
    if !admitted {
      return Refused;
    }
    var currentContext := RequireContext(reader.contexts, CURRENT, "2026-06-27", "2026-03-29");
    var priorContext := RequireContext(reader.contexts, PRIOR, "2025-06-28", "2025-03-30");
    if currentContext.None? || priorContext.None? {
      return Refused;
    }
    var unit := FindUnit(reader.units, TARGET_UNIT);
    if unit.None? {
      return Refused;
    }
    var currentRaw := ExtractFact(reader.facts, TARGET_CONCEPT, CURRENT, unit.value);
    var priorRaw := ExtractFact(reader.facts, TARGET_CONCEPT, PRIOR, unit.value);
    if currentRaw.None? || priorRaw.None? {
      return Refused;
    }
    built := Calculate(inputs, currentContext.value, priorContext.value, currentRaw.value, priorRaw.value, sentence);
  }

  // ----- every artifact it builds -------------------------------------------------------

  lemma SelectedHasId(r: Reading, concept: string, context: string, unit: string)
    requires ReaderInv(r) && Extract(r.facts, concept, context, unit).Some?
    ensures var f := Extract(r.facts, concept, context, unit).value;
            f in r.facts && FactId(f.id) && f.name == concept && f.context == context && Fragment("#" + f.id)
  {
    hide FactId;
    var f := Extract(r.facts, concept, context, unit).value;
    assert ("#" + f.id)[1..] == f.id;
  }

  /** What a built artifact is: assembled from facts of the accepted filing. */
  lemma PublishedFrom(tokens: seq<Token>, inputs: Inputs, sentence: Sentence)
    returns (currentContext: RawContext, priorContext: RawContext, currentRaw: RawFact, priorRaw: RawFact, current: nat, prior: nat)
    requires Build(tokens, inputs, sentence).Published?
    ensures TakeAll(FRESH, tokens).Some? && ReaderInv(TakeAll(FRESH, tokens).value)
    ensures var facts := TakeAll(FRESH, tokens).value.facts;
            && currentRaw in facts && priorRaw in facts && Fragment("#" + currentRaw.id) && Fragment("#" + priorRaw.id)
            && currentRaw.name == TARGET_CONCEPT == priorRaw.name && currentRaw.context == CURRENT && priorRaw.context == PRIOR
            && DisplayValue(currentRaw.display) == Some(current) && DisplayValue(priorRaw.display) == Some(prior)
    ensures prior > 0 && !Difference(current, prior).negative
    ensures 0 < ChangeOf(Difference(current, prior), prior) < Pow10(R.PRECISION)
    ensures Build(tokens, inputs, sentence).analysis
            == Assemble(inputs, currentContext, priorContext, currentRaw, priorRaw, current, prior,
                        ChangeOf(Difference(current, prior), prior), sentence)
  {
    hide Extract, DisplayValue, Difference, ChangeOf, Assemble, RequireContext, UnitFor, TakeAll, ReaderInv, Fragment, FactId;
    AcceptedStream(tokens);
    var r := TakeAll(FRESH, tokens).value;
    var unit := UnitFor(r.units, TARGET_UNIT).value;
    SelectedHasId(r, TARGET_CONCEPT, CURRENT, unit);
    SelectedHasId(r, TARGET_CONCEPT, PRIOR, unit);
    currentContext := RequireContext(r.contexts, CURRENT, "2026-06-27", "2026-03-29").value;
    priorContext := RequireContext(r.contexts, PRIOR, "2025-06-28", "2025-03-30").value;
    currentRaw := Extract(r.facts, TARGET_CONCEPT, CURRENT, unit).value;
    priorRaw := Extract(r.facts, TARGET_CONCEPT, PRIOR, unit).value;
    current, prior := DisplayValue(currentRaw.display).value, DisplayValue(priorRaw.display).value;
  }

  lemma AssembledIsLinked(inputs: Inputs, currentContext: RawContext, priorContext: RawContext, currentRaw: RawFact,
                          priorRaw: RawFact, current: nat, prior: nat, change: nat, sentence: Sentence)
    requires Fragment("#" + currentRaw.id) && Fragment("#" + priorRaw.id)
    ensures LineageComplete(Assemble(inputs, currentContext, priorContext, currentRaw, priorRaw, current, prior, change, sentence))
  {
    hide Fragment, Difference;
    var a := Assemble(inputs, currentContext, priorContext, currentRaw, priorRaw, current, prior, change, sentence);
    var m := a.manifest;
    assert m.calculations[..0] == [] && m.links[..0] == [] && m.facts[..1] == [m.facts[0]] && m.facts[..1][..0] == [];
    assert CalculationsById(m.calculations) == map[CALC_ID := m.calculations[0]];
    assert LinksByClaim(m.links) == map[CLAIM_ID := m.links[0]];
    assert FactsById(m.facts[..1]) == map[CURRENT_FACT_ID := m.facts[0]];
    assert FactsById(m.facts) == map[CURRENT_FACT_ID := m.facts[0], PRIOR_FACT_ID := m.facts[1]];
    assert m.sources[0].id == SOURCE_ID;
    assert Anchored(m, m.facts[0]) && Anchored(m, m.facts[1]);
  }

  /** The fragment is that of one element of the filing and of no other. */
  ghost predicate NamesOne(facts: seq<RawFact>, fragment: string) {
    exists k :: 0 <= k < |facts| && fragment == "#" + facts[k].id
      && forall j :: 0 <= j < |facts| && j != k ==> fragment != "#" + facts[j].id
  }

  lemma AssembledFragments(inputs: Inputs, currentContext: RawContext, priorContext: RawContext, currentRaw: RawFact,
                           priorRaw: RawFact, current: nat, prior: nat, change: nat, sentence: Sentence)
    ensures var a := Assemble(inputs, currentContext, priorContext, currentRaw, priorRaw, current, prior, change, sentence);
            && |a.manifest.facts| == 2
            && a.manifest.facts[0].fragment == "#" + currentRaw.id && a.manifest.facts[1].fragment == "#" + priorRaw.id
  {
    hide Difference;
  }

  /** For every token stream the builder accepts: every lineage edge of the artifact resolves, so no
      claim id is unresolved and the canonical form exists; each fragment names one element of the
      filing; and parsing the canonical tree gives the artifact back. */
  lemma BuiltIsPublishable(tokens: seq<Token>, inputs: Inputs, sentence: Sentence, text: Json -> string)
    requires Build(tokens, inputs, sentence).Published?
    ensures var a := Build(tokens, inputs, sentence).analysis;
            && LineageComplete(a) && ParseAnalysis(Tree(a), text) == Some(a)
            && TakeAll(FRESH, tokens).Some?
            && (forall i :: 0 <= i < |a.manifest.facts| ==>
                  NamesOne(TakeAll(FRESH, tokens).value.facts, a.manifest.facts[i].fragment))
  {
    hide Build, TakeAll, ParseAnalysis, Tree, LineageComplete, Fragment, DisplayValue, Difference, ChangeOf, Assemble,
      NamesOne, FactId, UniqueIds;
    var a := Build(tokens, inputs, sentence).analysis;
    var cc, pc, cr, pr, current, prior := PublishedFrom(tokens, inputs, sentence);
    var change := ChangeOf(Difference(current, prior), prior);
    AssembledIsLinked(inputs, cc, pc, cr, pr, current, prior, change, sentence);
    AssembledCalculation(inputs, cc, pc, cr, pr, current, prior, change, sentence);
    AssembledFragments(inputs, cc, pc, cr, pr, current, prior, change, sentence);
    TreeParsesBack(a, text);
    FragmentNamesOne(TakeAll(FRESH, tokens).value.facts, cr);
    FragmentNamesOne(TakeAll(FRESH, tokens).value.facts, pr);
  }

  lemma FragmentNamesOne(facts: seq<RawFact>, f: RawFact)
    requires UniqueIds(facts) && f in facts
    ensures NamesOne(facts, "#" + f.id)
  {
    var k :| 0 <= k < |facts| && facts[k] == f;
    forall j | 0 <= j < |facts| && j != k ensures "#" + f.id != "#" + facts[j].id {
      assert facts[j].id != f.id;
      assert ("#" + f.id)[1..] == f.id && ("#" + facts[j].id)[1..] == facts[j].id;
    }
  }

  /** The published numerator is the difference of the two published facts, to within half a unit of
      its 28th digit, and exactly the difference below 10^28. The published change is the percentage
      that numerator is of the denominator, rounded half-up once, if and only if the 28-digit quotient
      hides nothing; it never hides anything while the numerator is below 10^23. */
  lemma BuiltChangeIsExact(tokens: seq<Token>, inputs: Inputs, sentence: Sentence)
    requires Build(tokens, inputs, sentence).Published?
    ensures var m := Build(tokens, inputs, sentence).analysis.manifest;
            var c := m.calculations[0];
            var n, current, prior := Magnitude(c.numerator), m.facts[0].value.digits, m.facts[1].value.digits;
            && c.denominator == Dec.Decimal(false, prior, 0) && prior > 0 && current > prior
            && !c.numerator.negative && n > 0 && InContext(c.numerator, current - prior)
            && (c.value == Exactly(c) <==> !R.Visible(n, prior))
            && (n < R.BOUND ==> c.value == Exactly(c))
  {
    hide Build, TakeAll, Fragment, DisplayValue, Difference, ReaderInv, ChangeOf, Assemble, R.ExactHundredths, R.Visible,
      UniqueIds, FactId, Pow10, InContext, Magnitude;
    var cc, pc, cr, pr, current, prior := PublishedFrom(tokens, inputs, sentence);
    var change := ChangeOf(Difference(current, prior), prior);
    AssembledCalculation(inputs, cc, pc, cr, pr, current, prior, change, sentence);
    DifferenceIsNear(current, prior);
    ChangeIsExact(Difference(current, prior), prior);
  }

  /** d is n as the 28-digit context holds it: n itself below 10^28, and never further from n than half
      a unit of d's last digit. */
  ghost predicate InContext(d: Dec.Decimal, n: nat) {
    && d.exponent >= 0
    && 2 * n - Pow10(d.exponent) <= 2 * Magnitude(d) <= 2 * n + Pow10(d.exponent)
    && (n < Pow10(R.PRECISION) ==> d.digits == n && d.exponent == 0 && Magnitude(d) == n)
  }

  /** The percentage the numerator is of the denominator, in hundredths, rounded half-up once. */
  function Exactly(c: Calculation): Dec.Decimal
    requires c.denominator.digits > 0
  {
    Dec.Decimal(false, R.ExactHundredths(Magnitude(c.numerator), c.denominator.digits), -2)
  }

  /** The subtraction loses at most half a unit of its 28th digit. */
  lemma DifferenceIsNear(current: nat, prior: nat)
    ensures var d := Difference(current, prior);
            d.negative == (current < prior) && InContext(d, if current < prior then prior - current else current - prior)
  {
    var n := if current < prior then prior - current else current - prior;
    assert Pow10(0) == 1;
    var k := |Numeral(n)| - R.PRECISION;
    if n >= Pow10(R.PRECISION) && k > 0 {
      R.HalfEvenIsNear(n, Pow10(k));
      PowSum(R.PRECISION - 1, 1);
      PowSum(1, k);
      R.TenTimes(Pow10(R.PRECISION - 1), Pow10(k));
    }
  }

  lemma AssembledCalculation(inputs: Inputs, currentContext: RawContext, priorContext: RawContext, currentRaw: RawFact,
                             priorRaw: RawFact, current: nat, prior: nat, change: nat, sentence: Sentence)
    ensures var a := Assemble(inputs, currentContext, priorContext, currentRaw, priorRaw, current, prior, change, sentence);
            && a.schemaVersion == SCHEMA_VERSION && a.cik == CANONICAL_CIK
            && |a.manifest.calculations| == 1
            && a.manifest.calculations[0].numerator == Difference(current, prior)
            && a.manifest.calculations[0].denominator == Dec.Decimal(false, prior, 0)
            && a.manifest.calculations[0].value == Dec.Decimal(false, change, -2)
            && |a.manifest.facts| == 2 && a.manifest.facts[0].value == Dec.Decimal(false, current, 0)
            && a.manifest.facts[1].value == Dec.Decimal(false, prior, 0)
  {
    hide Difference;
  }

  lemma ChangeIsExact(numerator: Dec.Decimal, prior: nat)
    requires prior > 0 && 0 < ChangeOf(numerator, prior) < Pow10(R.PRECISION)
    ensures var n := Magnitude(numerator);
            && n > 0
            && (ChangeOf(numerator, prior) == R.ExactHundredths(n, prior) <==> !R.Visible(n, prior))
            && (n < R.BOUND ==> ChangeOf(numerator, prior) == R.ExactHundredths(n, prior))
  {
    hide R.Hundredths, R.Visible, R.ExactHundredths, Pow10, Magnitude;
    var n := Magnitude(numerator);
    if n >= R.SHOWN * prior {
      R.BeyondIsRefused(n, prior);
      assert false;
    }
    R.DoubleRoundingExactly(n, prior);
    if n < R.BOUND {
      R.DoubleRoundingHarmless(n, prior);
    }
  }

  /** Two filings that differ only in the order of their recorded facts build the same artifact. */
  lemma BuildIgnoresFactOrder(r: Reading, facts: seq<RawFact>, inputs: Inputs, sentence: Sentence)
    requires ReaderInv(r) && multiset(r.facts) == multiset(facts)
    ensures BuildFrom(r, inputs, sentence) == BuildFrom(r.(facts := facts), inputs, sentence)
  {
    hide Extract, Calculate, RequireContext, UnitFor;
    if UnitFor(r.units, TARGET_UNIT).Some? {
      ExtractIgnoresOrder(r.facts, facts, TARGET_CONCEPT, CURRENT, UnitFor(r.units, TARGET_UNIT).value);
      ExtractIgnoresOrder(r.facts, facts, TARGET_CONCEPT, PRIOR, UnitFor(r.units, TARGET_UNIT).value);
    }
  }
}
