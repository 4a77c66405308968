// Exactly which JSON trees the strict parse accepts, and as which artifact.
module Parsing {
  import opened EventTypes
  import opened Decimals
  import opened Artifacts

  predicate At(j: Json, key: string, value: Json) {
    j.JObj? && key in j.fields && j.fields[key] == value
  }

  predicate Spells(value: Json, d: Decimal) {
    value.JStr? && Parse(value.s) == Some(d)
  }

  ghost predicate DecimalAt(j: Json, key: string, d: Decimal) {
    exists value :: At(j, key, value) && Spells(value, d)
  }

  /** A reference; what is not a string is taken as str() shows it. */
  predicate Refers(item: Json, ref: string, text: Json -> string) {
    if item.JStr? then item.s == ref else text(item) == ref
  }

  ghost predicate TextsAt(j: Json, key: string, refs: seq<string>, text: Json -> string) {
    exists list: seq<Json> :: At(j, key, JList(list)) && |list| == |refs| && forall i :: 0 <= i < |list| ==> Refers(list[i], refs[i], text)
  }

  ghost predicate PeriodAt(j: Json, key: string, p: Period) {
    exists value :: At(j, key, value) && At(value, "start_date", JStr(p.startDate)) && At(value, "end_date", JStr(p.endDate))
  }

  ghost predicate IsSource(j: Json, s: Source) {
    && At(j, "source_id", JStr(s.id)) && At(j, "archived_url", JStr(s.archivedUrl)) && At(j, "digest", JStr(s.digest))
    && At(j, "source_ref", JStr(s.ref))
  }

  ghost predicate IsFact(j: Json, f: Fact) {
    && At(j, "evidence_id", JStr(f.id)) && At(j, "concept", JStr(f.concept)) && At(j, "context", JStr(f.context))
    && PeriodAt(j, "period", f.period) && At(j, "unit", JStr(f.unit)) && At(j, "scale", JInt(f.scale))
    && DecimalAt(j, "decimal_value", f.value) && At(j, "source_id", JStr(f.source))
    && At(j, "source_fragment", JStr(f.fragment))
  }

  ghost predicate IsCalculation(j: Json, c: Calculation, text: Json -> string) {
    && At(j, "evidence_id", JStr(c.id)) && At(j, "operation", JStr(c.operation))
    && TextsAt(j, "input_fact_refs", c.inputs, text) && At(j, "formula", JStr(c.formula))
    && DecimalAt(j, "numerator", c.numerator) && DecimalAt(j, "denominator", c.denominator)
    && At(j, "rounding_rule", JStr(c.roundingRule)) && At(j, "output_scale", JInt(c.outputScale))
    && At(j, "unit", JStr(c.unit)) && DecimalAt(j, "value", c.value)
  }

  ghost predicate IsLink(j: Json, l: Link) {
    At(j, "claim_id", JStr(l.claim)) && At(j, "calculation_ref", JStr(l.calculation))
  }

  ghost predicate IsClaim(j: Json, c: Claim, text: Json -> string) {
    At(j, "claim_id", JStr(c.id)) && At(j, "text", JStr(c.text)) && TextsAt(j, "evidence_refs", c.refs, text)
  }

  ghost predicate Match<T>(list: seq<Json>, entries: seq<T>, accepted: (Json, T) -> bool) {
    |list| == |entries| && forall i :: 0 <= i < |list| ==> list[i].JObj? && accepted(list[i], entries[i])
  }

  /** A list of objects under the key, as many as the entries, each of them accepted as its entry. */
  ghost predicate ListAt<T>(j: Json, key: string, entries: seq<T>, accepted: (Json, T) -> bool) {
    exists list: seq<Json> :: At(j, key, JList(list)) && Match(list, entries, accepted)
  }

  ghost predicate IsMemo(j: Json, m: Memo, text: Json -> string) {
    At(j, "title", JStr(m.title)) && ListAt(j, "claims", m.claims, (item: Json, c: Claim) => IsClaim(item, c, text))
  }

  ghost predicate IsManifest(j: Json, m: Manifest, text: Json -> string) {
    && ListAt(j, "sources", m.sources, (item: Json, s: Source) => IsSource(item, s))
    && ListAt(j, "facts", m.facts, (item: Json, f: Fact) => IsFact(item, f))
    && ListAt(j, "calculations", m.calculations, (item: Json, c: Calculation) => IsCalculation(item, c, text))
    && ListAt(j, "claim_links", m.links, (item: Json, l: Link) => IsLink(item, l))
  }

  /** The tree of an artifact of this schema and filer: every field there, of its own type. */
  ghost predicate IsAnalysis(j: Json, a: Analysis, text: Json -> string) {
    && a.schemaVersion == "first-published-analysis/1" && a.cik == "0000320193"
    && At(j, "schema_version", JStr(a.schemaVersion)) && At(j, "cik", JStr(a.cik))
    && At(j, "as_of_date", JStr(a.asOfDate)) && At(j, "source_url", JStr(a.sourceUrl))
    && At(j, "filing_digest", JStr(a.filingDigest))
    && (exists memo: Json :: memo.JObj? && At(j, "memo", memo) && IsMemo(memo, a.memo, text))
    && (exists manifest: Json :: manifest.JObj? && At(j, "evidence_manifest", manifest) && IsManifest(manifest, a.manifest, text))
  }

  // ----- lookups ------------------------------------------------------------------------

  lemma Looks(j: Json, key: string)
    ensures forall s :: Str(j, key) == Some(s) <==> At(j, key, JStr(s))
    ensures forall n :: Int(j, key) == Some(n) <==> At(j, key, JInt(n))
    ensures forall d :: Dec(j, key) == Some(d) <==> DecimalAt(j, key, d)
    ensures forall o :: Obj(j, key) == Some(o) <==> o.JObj? && At(j, key, o)
    ensures forall list :: Items(j, key) == Some(list) <==> At(j, key, JList(list))
  {
    hide Parse;
    forall d ensures Dec(j, key) == Some(d) <==> DecimalAt(j, key, d) {
      if Dec(j, key) == Some(d) {
        assert At(j, key, j.fields[key]) && Spells(j.fields[key], d);
      }
    }
  }

  lemma TextsExactly(j: Json, key: string, refs: seq<string>, text: Json -> string)
    ensures (Items(j, key).Some? && Texts(Items(j, key).value, text) == refs) <==> TextsAt(j, key, refs, text)
  {
    Looks(j, key);
    if Items(j, key).Some? && Texts(Items(j, key).value, text) == refs {
      var list := Items(j, key).value;
      assert forall i :: 0 <= i < |list| ==> Refers(list[i], refs[i], text);
    }
    if TextsAt(j, key, refs, text) {
      var list: seq<Json> :| At(j, key, JList(list)) && |list| == |refs| && forall i :: 0 <= i < |list| ==> Refers(list[i], refs[i], text);
      assert Items(j, key) == Some(list);
      assert Texts(list, text) == refs;
    }
  }

  lemma {:induction false} EachExactly<T>(items: seq<Json>, parse: Json -> Option<T>, entries: seq<T>)
    ensures Each(items, parse) == Some(entries) <==>
              |items| == |entries| && forall i :: 0 <= i < |items| ==> items[i].JObj? && parse(items[i]) == Some(entries[i])
  {
    if items != [] {
      var k := |items| - 1;
      if entries != [] {
        EachExactly(items[..k], parse, entries[..|entries| - 1]);
        assert entries == entries[..|entries| - 1] + [entries[|entries| - 1]];
      }
    }
  }

  lemma MatchExactly<T(!new)>(list: seq<Json>, parse: Json -> Option<T>, entries: seq<T>, accepted: (Json, T) -> bool)
    requires forall item, entry :: parse(item) == Some(entry) <==> accepted(item, entry)
    ensures Each(list, parse) == Some(entries) <==> Match(list, entries, accepted)
  {
    EachExactly(list, parse, entries);
    hide Each;
  }

  lemma ListExactly<T(!new)>(j: Json, key: string, parse: Json -> Option<T>, entries: seq<T>, accepted: (Json, T) -> bool)
    requires forall item, entry :: parse(item) == Some(entry) <==> accepted(item, entry)
    ensures EachOf(j, key, parse) == Some(entries) <==> ListAt(j, key, entries, accepted)
  {
    hide Items, At, Each, Match;
    Looks(j, key);
    forall list: seq<Json> ensures Each(list, parse) == Some(entries) <==> Match(list, entries, accepted) {
      MatchExactly(list, parse, entries, accepted);
    }
  }

  // ----- entry by entry -----------------------------------------------------------------

  lemma SourceExactly(j: Json, s: Source)
    ensures ParseSource(j) == Some(s) <==> IsSource(j, s)
  {
    Looks(j, "source_id");
    Looks(j, "archived_url");
    Looks(j, "digest");
    Looks(j, "source_ref");
  }

  lemma LinkExactly(j: Json, l: Link)
    ensures ParseLink(j) == Some(l) <==> IsLink(j, l)
  {
    Looks(j, "claim_id");
    Looks(j, "calculation_ref");
  }

  lemma PeriodExactly(j: Json, p: Period)
    ensures (Obj(j, "period").Some? && ParsePeriod(Obj(j, "period").value) == Some(p)) <==> PeriodAt(j, "period", p)
  {
    Looks(j, "period");
    if Obj(j, "period").Some? {
      var value := Obj(j, "period").value;
      Looks(value, "start_date");
      Looks(value, "end_date");
      assert At(j, "period", value);
    }
  }

  lemma FactExactly(j: Json, f: Fact)
    ensures ParseFact(j) == Some(f) <==> IsFact(j, f)
  {
    hide Str, Int, Dec, Obj, ParsePeriod, At, DecimalAt, PeriodAt;
    Looks(j, "evidence_id");
    Looks(j, "concept");
    Looks(j, "context");
    PeriodExactly(j, f.period);
    Looks(j, "unit");
    Looks(j, "scale");
    Looks(j, "decimal_value");
    Looks(j, "source_id");
    Looks(j, "source_fragment");
  }

  lemma CalculationExactly(j: Json, c: Calculation, text: Json -> string)
    ensures ParseCalculation(j, text) == Some(c) <==> IsCalculation(j, c, text)
  {
    hide Str, Int, Dec, Items, Texts, At, DecimalAt, TextsAt;
    Looks(j, "evidence_id");
    Looks(j, "operation");
    TextsExactly(j, "input_fact_refs", c.inputs, text);
    Looks(j, "formula");
    Looks(j, "numerator");
    Looks(j, "denominator");
    Looks(j, "rounding_rule");
    Looks(j, "output_scale");
    Looks(j, "unit");
    Looks(j, "value");
  }

  lemma ClaimExactly(j: Json, c: Claim, text: Json -> string)
    ensures ParseClaim(j, text) == Some(c) <==> IsClaim(j, c, text)
  {
    hide Str, Items, Texts, At, TextsAt;
    Looks(j, "claim_id");
    Looks(j, "text");
    TextsExactly(j, "evidence_refs", c.refs, text);
  }

  lemma MemoExactly(j: Json, m: Memo, text: Json -> string)
    ensures ParseMemo(j, text) == Some(m) <==> IsMemo(j, m, text)
  {
    hide Str, EachOf, At, ParseClaim, IsClaim, ListAt;
    Looks(j, "title");
    forall item, c ensures ParseClaim(item, text) == Some(c) <==> IsClaim(item, c, text) {
      ClaimExactly(item, c, text);
    }
    ListExactly(j, "claims", (item: Json) => ParseClaim(item, text), m.claims, (item: Json, c: Claim) => IsClaim(item, c, text));
  }

  lemma ManifestExactly(j: Json, m: Manifest, text: Json -> string)
    ensures ParseManifest(j, text) == Some(m) <==> IsManifest(j, m, text)
  {
    hide EachOf, ListAt, ParseSource, ParseFact, ParseCalculation, ParseLink, IsSource, IsFact, IsCalculation, IsLink;
    forall item, s ensures ParseSource(item) == Some(s) <==> IsSource(item, s) {
      SourceExactly(item, s);
    }
    forall item, f ensures ParseFact(item) == Some(f) <==> IsFact(item, f) {
      FactExactly(item, f);
    }
    forall item, c ensures ParseCalculation(item, text) == Some(c) <==> IsCalculation(item, c, text) {
      CalculationExactly(item, c, text);
    }
    forall item, l ensures ParseLink(item) == Some(l) <==> IsLink(item, l) {
      LinkExactly(item, l);
    }
    ListExactly(j, "sources", ParseSource, m.sources, (item: Json, s: Source) => IsSource(item, s));
    ListExactly(j, "facts", ParseFact, m.facts, (item: Json, f: Fact) => IsFact(item, f));
    ListExactly(j, "calculations", (item: Json) => ParseCalculation(item, text), m.calculations,
                (item: Json, c: Calculation) => IsCalculation(item, c, text));
    ListExactly(j, "claim_links", ParseLink, m.links, (item: Json, l: Link) => IsLink(item, l));
  }

  lemma MemoPart(j: Json, m: Memo, text: Json -> string)
    ensures (Obj(j, "memo").Some? && ParseMemo(Obj(j, "memo").value, text) == Some(m))
            <==> exists memo: Json :: memo.JObj? && At(j, "memo", memo) && IsMemo(memo, m, text)
  {
    hide ParseMemo, IsMemo;
    Looks(j, "memo");
    forall memo ensures ParseMemo(memo, text) == Some(m) <==> IsMemo(memo, m, text) {
      MemoExactly(memo, m, text);
    }
  }

  lemma ManifestPart(j: Json, m: Manifest, text: Json -> string)
    ensures (Obj(j, "evidence_manifest").Some? && ParseManifest(Obj(j, "evidence_manifest").value, text) == Some(m))
            <==> exists manifest: Json :: manifest.JObj? && At(j, "evidence_manifest", manifest) && IsManifest(manifest, m, text)
  {
    hide ParseManifest, IsManifest;
    Looks(j, "evidence_manifest");
    forall manifest ensures ParseManifest(manifest, text) == Some(m) <==> IsManifest(manifest, m, text) {
      ManifestExactly(manifest, m, text);
    }
  }

  /** A tree is accepted as an artifact if and only if it is that artifact's: fail closed, field by field. */
  lemma ParseExactly(j: Json, a: Analysis, text: Json -> string)
    ensures ParseAnalysis(j, text) == Some(a) <==> IsAnalysis(j, a, text)
  {
    hide Str, Obj, ParseMemo, ParseManifest, At, IsMemo, IsManifest;
    MemoPart(j, a.memo, text);
    ManifestPart(j, a.manifest, text);
    Looks(j, "schema_version");
    Looks(j, "cik");
    Looks(j, "as_of_date");
    Looks(j, "source_url");
    Looks(j, "filing_digest");
  }

  /** So the tree that is written is the artifact's own. */
  lemma TreeIsItsOwn(a: Analysis, text: Json -> string)
    requires a.schemaVersion == "first-published-analysis/1" && a.cik == "0000320193"
    ensures IsAnalysis(Tree(a), a, text)
  {
    hide Tree, ParseAnalysis, IsAnalysis;
    TreeParsesBack(a, text);
    ParseExactly(Tree(a), a, text);
  }
}
