// The published analysis: its lineage walk, and its serialisation to and from a JSON tree.
module Artifacts {
  import opened EventTypes
  import opened Digits
  import opened Decimals

  const SCHEMA_VERSION: string := "first-published-analysis/1"
  const CANONICAL_CIK: string := "0000320193"

  datatype Period = Period(startDate: string, endDate: string)

  datatype Source = Source(id: string, archivedUrl: string, digest: string, ref: string)

  datatype Fact = Fact(id: string, concept: string, context: string, period: Period, unit: string, scale: int,
                       value: Decimal, source: string, fragment: string)

  datatype Calculation = Calculation(id: string, operation: string, inputs: seq<string>, formula: string,
                                     numerator: Decimal, denominator: Decimal, roundingRule: string,
                                     outputScale: int, unit: string, value: Decimal)

  datatype Link = Link(claim: string, calculation: string)

  datatype Claim = Claim(id: string, text: string, refs: seq<string>)

  datatype Memo = Memo(title: string, claims: seq<Claim>)

  datatype Manifest = Manifest(sources: seq<Source>, facts: seq<Fact>, calculations: seq<Calculation>, links: seq<Link>)

  datatype Analysis = Analysis(schemaVersion: string, cik: string, asOfDate: string, sourceUrl: string,
                               filingDigest: string, memo: Memo, manifest: Manifest)

  // ----- lineage ------------------------------------------------------------------------

  predicate IdStart(c: char) {
    'A' <= c <= 'Z' || 'a' <= c <= 'z' || c == '_'
  }

  predicate IdRest(c: char) {
    IdStart(c) || IsDigit(c) || c == '.' || c == '-'
  }

  /** The element ids a fragment may name. */
  predicate FactId(s: string) {
    1 <= |s| <= 128 && IdStart(s[0]) && forall i :: 1 <= i < |s| ==> IdRest(s[i])
  }

  predicate Fragment(s: string) {
    s != "" && s[0] == '#' && FactId(s[1..])
  }

  /** Dictionaries keyed by id: a later entry replaces an earlier one. */
  function CalculationsById(cs: seq<Calculation>): map<string, Calculation> {
    if cs == [] then map[] else CalculationsById(cs[..|cs| - 1])[cs[|cs| - 1].id := cs[|cs| - 1]]
  }

  function FactsById(fs: seq<Fact>): map<string, Fact> {
    if fs == [] then map[] else FactsById(fs[..|fs| - 1])[fs[|fs| - 1].id := fs[|fs| - 1]]
  }

  function LinksByClaim(ls: seq<Link>): map<string, Link> {
    if ls == [] then map[] else LinksByClaim(ls[..|ls| - 1])[ls[|ls| - 1].claim := ls[|ls| - 1]]
  }

  function SourceIds(ss: seq<Source>): set<string> {
    set i | 0 <= i < |ss| :: ss[i].id
  }

  /** A fact that resolves: its source is listed and its fragment names one element. */
  predicate Anchored(m: Manifest, fact: Fact) {
    (exists i :: 0 <= i < |m.sources| && m.sources[i].id == fact.source) && Fragment(fact.fragment)
  }

  /** Every edge from a claim resolves: its references, its link, the link's calculation, the
      calculation's inputs, and each input's source and fragment. */
  predicate FullyLinked(m: Manifest, claim: Claim) {
    var calculations, facts, links := CalculationsById(m.calculations), FactsById(m.facts), LinksByClaim(m.links);
    && claim.refs != []
    && (forall i :: 0 <= i < |claim.refs| ==> claim.refs[i] in calculations || claim.refs[i] in facts)
    && claim.id in links
    && links[claim.id].calculation in calculations
    && var inputs := calculations[links[claim.id].calculation].inputs;
       forall i :: 0 <= i < |inputs| ==> inputs[i] in facts && Anchored(m, facts[inputs[i]])
  }

  ghost predicate LineageComplete(a: Analysis) {
    forall i :: 0 <= i < |a.memo.claims| ==> FullyLinked(a.manifest, a.memo.claims[i])
  }

  /** The walk for one claim, step by step, as it records or skips. */
  method Resolves(m: Manifest, claim: Claim) returns (resolved: bool)
    ensures resolved <==> FullyLinked(m, claim)
  {
    var calculations, facts, links := CalculationsById(m.calculations), FactsById(m.facts), LinksByClaim(m.links);
    var sources := SourceIds(m.sources);
    resolved := true;
    if claim.refs == [] {
      return false;
    }
    for i := 0 to |claim.refs|
      invariant resolved
      invariant forall k :: 0 <= k < i ==> claim.refs[k] in calculations || claim.refs[k] in facts
    {
      if claim.refs[i] !in calculations && claim.refs[i] !in facts {
        resolved := false;
        break;
      }
    }
    if claim.id !in links {
      return false;
    }
    if links[claim.id].calculation !in calculations {
      return false;
    }
    var inputs := calculations[links[claim.id].calculation].inputs;
    for i := 0 to |inputs|
      invariant forall k :: 0 <= k < i ==> inputs[k] in facts
    {
      if inputs[i] !in facts {
        return false;
      }
    }
    for i := 0 to |inputs|
      invariant forall k :: 0 <= k < i ==> Anchored(m, facts[inputs[k]])
    {
      var fact := facts[inputs[i]];
      if fact.source !in sources || !Fragment(fact.fragment) {
        return false;
      }
    }
  }

  /** String order by code point. */
  predicate Less(a: string, b: string) {
    if b == "" then false
    else if a == "" then true
    else if a[0] != b[0] then a[0] < b[0]
    else Less(a[1..], b[1..])
  }

  lemma {:induction false} LessIsOrder(a: string, b: string)
    ensures a == b || Less(a, b) || Less(b, a)
    ensures !(Less(a, b) && Less(b, a)) && (a == b ==> !Less(a, b))
  {
    if a != "" && b != "" {
      LessIsOrder(a[1..], b[1..]);
      assert a[0] == b[0] && a[1..] == b[1..] ==> a == b by {
        assert a == [a[0]] + a[1..] && b == [b[0]] + b[1..];
      }
    }
  }

  lemma {:induction false} LessTransitive(a: string, b: string, c: string)
    requires Less(a, b) && Less(b, c)
    ensures Less(a, c)
  {
    if a != "" && b != "" && c != "" && a[0] == b[0] == c[0] {
      LessTransitive(a[1..], b[1..], c[1..]);
    }
  }

  predicate Sorted(ids: seq<string>) {
    forall i, j :: 0 <= i < j < |ids| ==> Less(ids[i], ids[j])
  }

  /** Add an id to a sorted list of distinct ids. */
  method InsertSorted(ids: seq<string>, id: string) returns (r: seq<string>)
    requires Sorted(ids)
    ensures Sorted(r) && forall x :: x in r <==> x in ids || x == id
  {
    var k := 0;
    while k < |ids| && Less(ids[k], id)
      invariant k <= |ids| && forall i :: 0 <= i < k ==> Less(ids[i], id)
    {
      k := k + 1;
    }
    if k < |ids| && ids[k] == id {
      return ids;
    }
    r := ids[..k] + [id] + ids[k..];
    forall j | k <= j < |ids| ensures Less(id, ids[j]) {
      LessIsOrder(ids[k], id);
      if k < j {
        LessTransitive(id, ids[k], ids[j]);
      }
    }
  }

  /** unresolved_claim_ids: sorted, each once, exactly the ids of claims with a missing edge. */
  method UnresolvedClaimIds(a: Analysis) returns (ids: seq<string>)
    ensures Sorted(ids)
    ensures forall id :: id in ids <==>
              exists i :: 0 <= i < |a.memo.claims| && a.memo.claims[i].id == id && !FullyLinked(a.manifest, a.memo.claims[i])
    ensures ids == [] <==> LineageComplete(a)
  {
    ids := [];
    for k := 0 to |a.memo.claims|
      invariant Sorted(ids)
      invariant forall id :: id in ids <==>
                  exists i :: 0 <= i < k && a.memo.claims[i].id == id && !FullyLinked(a.manifest, a.memo.claims[i])
    {
      var resolved := Resolves(a.manifest, a.memo.claims[k]);
      if !resolved {
        ids := InsertSorted(ids, a.memo.claims[k].id);
      }
    }
    assert forall i :: 0 <= i < |a.memo.claims| && !FullyLinked(a.manifest, a.memo.claims[i]) ==> a.memo.claims[i].id in ids;
    assert ids != [] ==> ids[0] in ids;
  }

  // ----- the JSON tree ------------------------------------------------------------------

  datatype Json =
    | JNull | JBool(b: bool) | JInt(n: int) | JFloat(text: string) | JStr(s: string)
    | JList(items: seq<Json>) | JObj(fields: map<string, Json>)

  function Strings(ss: seq<string>): Json {
    JList(seq(|ss|, i requires 0 <= i < |ss| => JStr(ss[i])))
  }

  function PeriodTree(p: Period): Json {
    JObj(map["start_date" := JStr(p.startDate), "end_date" := JStr(p.endDate)])
  }

  function SourceTree(s: Source): Json {
    JObj(map["source_id" := JStr(s.id), "archived_url" := JStr(s.archivedUrl), "digest" := JStr(s.digest),
             "source_ref" := JStr(s.ref)])
  }

  function FactTree(f: Fact): Json {
    JObj(map["evidence_id" := JStr(f.id), "concept" := JStr(f.concept), "context" := JStr(f.context),
             "period" := PeriodTree(f.period), "unit" := JStr(f.unit), "scale" := JInt(f.scale),
             "decimal_value" := JStr(Show(f.value)), "source_id" := JStr(f.source),
             "source_fragment" := JStr(f.fragment)])
  }

  function CalculationTree(c: Calculation): Json {
    JObj(map["evidence_id" := JStr(c.id), "operation" := JStr(c.operation), "input_fact_refs" := Strings(c.inputs),
             "formula" := JStr(c.formula), "numerator" := JStr(Show(c.numerator)),
             "denominator" := JStr(Show(c.denominator)), "rounding_rule" := JStr(c.roundingRule),
             "output_scale" := JInt(c.outputScale), "unit" := JStr(c.unit), "value" := JStr(Show(c.value))])
  }

  function LinkTree(l: Link): Json {
    JObj(map["claim_id" := JStr(l.claim), "calculation_ref" := JStr(l.calculation)])
  }

  function ClaimTree(c: Claim): Json {
    JObj(map["claim_id" := JStr(c.id), "text" := JStr(c.text), "evidence_refs" := Strings(c.refs)])
  }

  function Trees<T>(items: seq<T>, tree: T -> Json): Json {
    JList(seq(|items|, i requires 0 <= i < |items| => tree(items[i])))
  }

  function MemoTree(m: Memo): Json {
    JObj(map["title" := JStr(m.title), "claims" := Trees(m.claims, ClaimTree)])
  }

  function ManifestTree(m: Manifest): Json {
    JObj(map["sources" := Trees(m.sources, SourceTree), "facts" := Trees(m.facts, FactTree),
             "calculations" := Trees(m.calculations, CalculationTree), "claim_links" := Trees(m.links, LinkTree)])
  }

  function Tree(a: Analysis): Json {
    JObj(map["schema_version" := JStr(a.schemaVersion), "cik" := JStr(a.cik), "as_of_date" := JStr(a.asOfDate),
             "source_url" := JStr(a.sourceUrl), "filing_digest" := JStr(a.filingDigest), "memo" := MemoTree(a.memo),
             "evidence_manifest" := ManifestTree(a.manifest)])
  }

  /** canonical_bytes, up to the text of the tree: refused while any claim is unresolved. */
  method Canonical(a: Analysis) returns (tree: Option<Json>)
    ensures tree == (if LineageComplete(a) then Some(Tree(a)) else None)
  {
    var unresolved := UnresolvedClaimIds(a);
    tree := if unresolved == [] then Some(Tree(a)) else None;
  }

  // ----- strict parse -------------------------------------------------------------------

  function Str(j: Json, key: string): Option<string> {
    if j.JObj? && key in j.fields && j.fields[key].JStr? then Some(j.fields[key].s) else None
  }

  /** A bool is refused although Python counts it an int. */
  function Int(j: Json, key: string): Option<int> {
    if j.JObj? && key in j.fields && j.fields[key].JInt? then Some(j.fields[key].n) else None
  }

  function Dec(j: Json, key: string): Option<Decimal> {
    match Str(j, key)
    case None => None
    case Some(s) => Parse(s)
  }

  function Obj(j: Json, key: string): Option<Json> {
    if j.JObj? && key in j.fields && j.fields[key].JObj? then Some(j.fields[key]) else None
  }

  function Items(j: Json, key: string): Option<seq<Json>> {
    if j.JObj? && key in j.fields && j.fields[key].JList? then Some(j.fields[key].items) else None
  }

  /** tuple(str(r) for r in ...): text is str() on what is not already a string. */
  function Texts(items: seq<Json>, text: Json -> string): seq<string> {
    seq(|items|, i requires 0 <= i < |items| => if items[i].JStr? then items[i].s else text(items[i]))
  }

  /** Each item must be an object and parse. */
  function Each<T>(items: seq<Json>, parse: Json -> Option<T>): Option<seq<T>> {
    if items == [] then Some([])
    else
      var k := |items| - 1;
      match (Each(items[..k], parse), if items[k].JObj? then parse(items[k]) else None)
      case (Some(before), Some(item)) => Some(before + [item])
      case _ => None
  }

  function ParsePeriod(j: Json): Option<Period> {
    match (Str(j, "start_date"), Str(j, "end_date"))
    case (Some(s), Some(e)) => Some(Period(s, e))
    case _ => None
  }

  function ParseSource(j: Json): Option<Source> {
    match (Str(j, "source_id"), Str(j, "archived_url"), Str(j, "digest"), Str(j, "source_ref"))
    case (Some(i), Some(u), Some(d), Some(r)) => Some(Source(i, u, d, r))
    case _ => None
  }

  function ParseFact(j: Json): Option<Fact> {
    if Obj(j, "period").None? then None
    else
      match (Str(j, "evidence_id"), Str(j, "concept"), Str(j, "context"), ParsePeriod(Obj(j, "period").value),
             Str(j, "unit"), Int(j, "scale"), Dec(j, "decimal_value"), Str(j, "source_id"), Str(j, "source_fragment"))
      case (Some(i), Some(c), Some(x), Some(p), Some(u), Some(s), Some(v), Some(r), Some(f)) =>
        Some(Fact(i, c, x, p, u, s, v, r, f))
      case _ => None
  }

  function ParseCalculation(j: Json, text: Json -> string): Option<Calculation> {
    match (Str(j, "evidence_id"), Str(j, "operation"), Items(j, "input_fact_refs"), Str(j, "formula"),
           Dec(j, "numerator"), Dec(j, "denominator"), Str(j, "rounding_rule"), Int(j, "output_scale"),
           Str(j, "unit"), Dec(j, "value"))
    case (Some(i), Some(o), Some(rs), Some(f), Some(n), Some(d), Some(r), Some(s), Some(u), Some(v)) =>
      Some(Calculation(i, o, Texts(rs, text), f, n, d, r, s, u, v))
    case _ => None
  }

  function ParseLink(j: Json): Option<Link> {
    match (Str(j, "claim_id"), Str(j, "calculation_ref"))
    case (Some(c), Some(r)) => Some(Link(c, r))
    case _ => None
  }

  function ParseClaim(j: Json, text: Json -> string): Option<Claim> {
    match (Str(j, "claim_id"), Str(j, "text"), Items(j, "evidence_refs"))
    case (Some(i), Some(t), Some(rs)) => Some(Claim(i, t, Texts(rs, text)))
    case _ => None
  }

  function EachOf<T>(j: Json, key: string, parse: Json -> Option<T>): Option<seq<T>> {
    match Items(j, key)
    case None => None
    case Some(items) => Each(items, parse)
  }

  function ParseMemo(j: Json, text: Json -> string): Option<Memo> {
    match (Str(j, "title"), EachOf(j, "claims", (item: Json) => ParseClaim(item, text)))
    case (Some(t), Some(cs)) => Some(Memo(t, cs))
    case _ => None
  }

  function ParseManifest(j: Json, text: Json -> string): Option<Manifest> {
    match (EachOf(j, "sources", ParseSource), EachOf(j, "facts", ParseFact),
           EachOf(j, "calculations", (item: Json) => ParseCalculation(item, text)), EachOf(j, "claim_links", ParseLink))
    case (Some(ss), Some(fs), Some(cs), Some(ls)) => Some(Manifest(ss, fs, cs, ls))
    case _ => None
  }

  /** parse_published_analysis past the JSON text; None is the refusal. */
  function ParseAnalysis(j: Json, text: Json -> string): Option<Analysis> {
    if Str(j, "schema_version") != Some(SCHEMA_VERSION) || Str(j, "cik") != Some(CANONICAL_CIK) then None
    else if Obj(j, "memo").None? || Obj(j, "evidence_manifest").None? then None
    else
      match (Str(j, "as_of_date"), Str(j, "source_url"), Str(j, "filing_digest"), ParseMemo(Obj(j, "memo").value, text),
             ParseManifest(Obj(j, "evidence_manifest").value, text))
      case (Some(a), Some(u), Some(d), Some(m), Some(e)) => Some(Analysis(SCHEMA_VERSION, CANONICAL_CIK, a, u, d, m, e))
      case _ => None
  }

  // ----- round trip ---------------------------------------------------------------------

  lemma {:induction false} EachTree<T>(items: seq<T>, tree: T -> Json, parse: Json -> Option<T>)
    requires forall i :: 0 <= i < |items| ==> tree(items[i]).JObj? && parse(tree(items[i])) == Some(items[i])
    ensures Each(Trees(items, tree).items, parse) == Some(items)
  {
    var k := |items| - 1;
    if items != [] {
      EachTree(items[..k], tree, parse);
      assert Trees(items, tree).items[..k] == Trees(items[..k], tree).items;
      assert items == items[..k] + [items[k]];
    } else {
      assert Trees(items, tree).items == [];
    }
  }

  lemma TextsBack(ss: seq<string>, text: Json -> string)
    ensures Texts(Strings(ss).items, text) == ss
  {
  }

  lemma FactBack(f: Fact)
    ensures FactTree(f).JObj? && ParseFact(FactTree(f)) == Some(f)
  {
    hide Show, Parse;
    ShowParses(f.value);
    assert FactTree(f).fields["period"] == PeriodTree(f.period);
  }

  lemma CalculationTexts(c: Calculation)
    ensures var j := CalculationTree(c);
            && Str(j, "evidence_id") == Some(c.id) && Str(j, "operation") == Some(c.operation)
            && Str(j, "formula") == Some(c.formula) && Str(j, "rounding_rule") == Some(c.roundingRule)
            && Str(j, "unit") == Some(c.unit) && Int(j, "output_scale") == Some(c.outputScale)
  {
    hide Show, Strings;
  }

  lemma CalculationNumbers(c: Calculation)
    ensures var j := CalculationTree(c);
            && Dec(j, "numerator") == Some(c.numerator) && Dec(j, "denominator") == Some(c.denominator)
            && Dec(j, "value") == Some(c.value) && Items(j, "input_fact_refs") == Some(Strings(c.inputs).items)
  {
    hide Show, Parse, Strings;
    ShowParses(c.numerator);
    ShowParses(c.denominator);
    ShowParses(c.value);
    StringsIsList(c.inputs);
  }

  lemma CalculationBack(c: Calculation, text: Json -> string)
    ensures CalculationTree(c).JObj? && ParseCalculation(CalculationTree(c), text) == Some(c)
  {
    CalculationTexts(c);
    CalculationNumbers(c);
    TextsBack(c.inputs, text);
    assert CalculationTree(c).JObj?;
    hide Texts, Strings, CalculationTree, Str, Int, Dec, Items;
  }

  lemma StringsIsList(ss: seq<string>)
    ensures Strings(ss).JList?
  {
  }

  lemma ClaimBack(c: Claim, text: Json -> string)
    ensures ClaimTree(c).JObj? && ParseClaim(ClaimTree(c), text) == Some(c)
  {
    TextsBack(c.refs, text);
  }

  lemma MemoBack(m: Memo, text: Json -> string)
    ensures ParseMemo(MemoTree(m), text) == Some(m)
  {
    hide ParseClaim, ClaimTree, Each, Trees;
    var parse := (item: Json) => ParseClaim(item, text);
    forall i | 0 <= i < |m.claims| ensures ClaimTree(m.claims[i]).JObj? && parse(ClaimTree(m.claims[i])) == Some(m.claims[i]) {
      ClaimBack(m.claims[i], text);
    }
    EachTree(m.claims, ClaimTree, parse);
    TreesIsList(m.claims, ClaimTree);
  }

  lemma TreesIsList<T>(items: seq<T>, tree: T -> Json)
    ensures Trees(items, tree).JList?
  {
  }

  lemma ManifestBack(m: Manifest, text: Json -> string)
    ensures ParseManifest(ManifestTree(m), text) == Some(m)
  {
    hide Each, Trees, ParseCalculation, CalculationTree, ParseFact, FactTree;
    var parse := (item: Json) => ParseCalculation(item, text);
    forall i | 0 <= i < |m.facts| ensures FactTree(m.facts[i]).JObj? && ParseFact(FactTree(m.facts[i])) == Some(m.facts[i]) {
      FactBack(m.facts[i]);
    }
    forall i | 0 <= i < |m.calculations|
      ensures CalculationTree(m.calculations[i]).JObj? && parse(CalculationTree(m.calculations[i])) == Some(m.calculations[i])
    {
      CalculationBack(m.calculations[i], text);
    }
    EachTree(m.sources, SourceTree, ParseSource);
    EachTree(m.facts, FactTree, ParseFact);
    EachTree(m.calculations, CalculationTree, parse);
    EachTree(m.links, LinkTree, ParseLink);
    TreesIsList(m.sources, SourceTree);
    TreesIsList(m.facts, FactTree);
    TreesIsList(m.calculations, CalculationTree);
    TreesIsList(m.links, LinkTree);
  }

  /** Parsing the tree of an artifact gives back the artifact, for every artifact of this schema and
      filer, whatever str() does to trees that are not strings. */
  lemma TreeParsesBack(a: Analysis, text: Json -> string)
    requires a.schemaVersion == SCHEMA_VERSION && a.cik == CANONICAL_CIK
    ensures ParseAnalysis(Tree(a), text) == Some(a)
  {
    hide ParseMemo, MemoTree, ParseManifest, ManifestTree;
    MemoBack(a.memo, text);
    ManifestBack(a.manifest, text);
    PartsAreObjects(a);
  }

  lemma PartsAreObjects(a: Analysis)
    ensures MemoTree(a.memo).JObj? && ManifestTree(a.manifest).JObj?
  {
  }
}
