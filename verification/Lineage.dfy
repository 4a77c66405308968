// Which claims resolve, from the lists themselves: where an id occurs twice the last entry counts.
module Lineage {
  import opened EventTypes
  import opened Decimals
  import opened Artifacts

  ghost predicate HasKey<T(!new)>(entries: seq<T>, key: T -> string, id: string) {
    exists i :: 0 <= i < |entries| && key(entries[i]) == id
  }

  /** The last entry with the id. */
  ghost predicate Last<T(!new)>(entries: seq<T>, key: T -> string, id: string, entry: T) {
    exists i :: 0 <= i < |entries| && entries[i] == entry && key(entry) == id && forall j :: i < j < |entries| ==> key(entries[j]) != id
  }

  lemma LastSnoc<T(!new)>(entries: seq<T>, key: T -> string, id: string, entry: T)
    requires entries != []
    ensures var k := |entries| - 1;
            && (HasKey(entries, key, id) <==> HasKey(entries[..k], key, id) || key(entries[k]) == id)
            && (Last(entries, key, id, entry)
                <==> if key(entries[k]) == id then entry == entries[k] else Last(entries[..k], key, id, entry))
  {
    var k := |entries| - 1;
    var before := entries[..k];
    assert forall i :: 0 <= i < k ==> before[i] == entries[i];
    if i :| 0 <= i < |before| && before[i] == entry && key(entry) == id && forall j :: i < j < |before| ==> key(before[j]) != id {
      assert entries[i] == entry;
      assert forall j :: i < j < k ==> key(entries[j]) == key(before[j]);
    }
    if i :| 0 <= i < |entries| && entries[i] == entry && key(entry) == id && forall j :: i < j < |entries| ==> key(entries[j]) != id {
      assert i < k ==> before[i] == entry && forall j :: i < j < k ==> key(before[j]) == key(entries[j]);
    }
  }

  lemma NoneLast<T(!new)>(key: T -> string, id: string)
    ensures !HasKey([], key, id) && forall entry :: !Last([], key, id, entry)
  {
  }

  const CALCULATION_ID: Calculation -> string := (c: Calculation) => c.id
  const FACT_ID: Fact -> string := (f: Fact) => f.id
  const LINK_CLAIM: Link -> string := (l: Link) => l.claim

  lemma {:induction false} CalculationFound(cs: seq<Calculation>, id: string, c: Calculation)
    ensures id in CalculationsById(cs) <==> HasKey(cs, CALCULATION_ID, id)
    ensures Last(cs, CALCULATION_ID, id, c) <==> id in CalculationsById(cs) && CalculationsById(cs)[id] == c
  {
    hide HasKey, Last;
    NoneLast(CALCULATION_ID, id);
    if cs != [] {
      LastSnoc(cs, CALCULATION_ID, id, c);
      CalculationFound(cs[..|cs| - 1], id, c);
    }
  }

  lemma {:induction false} FactFound(fs: seq<Fact>, id: string, f: Fact)
    ensures id in FactsById(fs) <==> HasKey(fs, FACT_ID, id)
    ensures Last(fs, FACT_ID, id, f) <==> id in FactsById(fs) && FactsById(fs)[id] == f
  {
    hide HasKey, Last;
    NoneLast(FACT_ID, id);
    if fs != [] {
      LastSnoc(fs, FACT_ID, id, f);
      FactFound(fs[..|fs| - 1], id, f);
    }
  }

  lemma {:induction false} LinkFound(ls: seq<Link>, claim: string, l: Link)
    ensures Last(ls, LINK_CLAIM, claim, l) <==> claim in LinksByClaim(ls) && LinksByClaim(ls)[claim] == l
  {
    hide HasKey, Last;
    NoneLast(LINK_CLAIM, claim);
    if ls != [] {
      LastSnoc(ls, LINK_CLAIM, claim, l);
      LinkFound(ls[..|ls| - 1], claim, l);
    }
  }

  /** The reference names a calculation or a fact. */
  ghost predicate Names(m: Manifest, ref: string) {
    HasKey(m.calculations, CALCULATION_ID, ref) || HasKey(m.facts, FACT_ID, ref)
  }

  /** The input is a fact, of a source that is listed, at a fragment of one element. */
  ghost predicate Traced(m: Manifest, input: string) {
    exists f :: Last(m.facts, FACT_ID, input, f) && Fragment(f.fragment)
                && exists i :: 0 <= i < |m.sources| && m.sources[i].id == f.source
  }

  const ZERO: Decimal := Decimal(false, 0, 0)

  lemma NamesExactly(m: Manifest, ref: string)
    ensures Names(m, ref) <==> ref in CalculationsById(m.calculations) || ref in FactsById(m.facts)
  {
    hide HasKey;
    var c := Calculation("", "", [], "", ZERO, ZERO, "", 0, "", ZERO);
    var f := Fact("", "", "", Period("", ""), "", 0, ZERO, "", "");
    CalculationFound(m.calculations, ref, c);
    FactFound(m.facts, ref, f);
  }

  lemma TracedExactly(m: Manifest, input: string)
    ensures Traced(m, input) <==> input in FactsById(m.facts) && Anchored(m, FactsById(m.facts)[input])
  {
    hide Last, Fragment;
    forall f ensures Last(m.facts, FACT_ID, input, f) <==> input in FactsById(m.facts) && FactsById(m.facts)[input] == f {
      FactFound(m.facts, input, f);
    }
  }

  /** A claim resolves if and only if it has references, each naming a calculation or a fact, and its link's
      calculation has only traced inputs. */
  lemma LinkedExactly(m: Manifest, claim: Claim)
    ensures FullyLinked(m, claim) <==>
              && claim.refs != [] && (forall i :: 0 <= i < |claim.refs| ==> Names(m, claim.refs[i]))
              && exists l, c :: Last(m.links, LINK_CLAIM, claim.id, l) && Last(m.calculations, CALCULATION_ID, l.calculation, c)
                                && forall i :: 0 <= i < |c.inputs| ==> Traced(m, c.inputs[i])
  {
    hide CalculationsById, FactsById, LinksByClaim, Last, Names, Traced, Anchored;
    forall ref ensures Names(m, ref) <==> ref in CalculationsById(m.calculations) || ref in FactsById(m.facts) {
      NamesExactly(m, ref);
    }
    forall input ensures Traced(m, input) <==> input in FactsById(m.facts) && Anchored(m, FactsById(m.facts)[input]) {
      TracedExactly(m, input);
    }
    forall l ensures Last(m.links, LINK_CLAIM, claim.id, l)
                     <==> claim.id in LinksByClaim(m.links) && LinksByClaim(m.links)[claim.id] == l {
      LinkFound(m.links, claim.id, l);
    }
    forall id, c ensures Last(m.calculations, CALCULATION_ID, id, c)
                         <==> id in CalculationsById(m.calculations) && CalculationsById(m.calculations)[id] == c {
      CalculationFound(m.calculations, id, c);
    }
  }
}
