// derived_idempotency_key: one key for one logical tool invocation, whichever worker or attempt
// makes it. The digest is taken to be injective, so a key is its preimage.
module IdempotencyKeys {
  import opened Digits

  const SEPARATOR: char := '\0'

  /** str(uuid) is 36 hexadecimal digits and hyphens; all the encoding needs of it is this. */
  predicate SeparatorFree(s: string) {
    SEPARATOR !in s
  }

  function Preimage(run: string, step: string, call: string): string {
    run + [SEPARATOR] + step + [SEPARATOR] + call
  }

  /** What stands before the first separator. */
  function Head(s: string): string {
    if s == "" || s[0] == SEPARATOR then "" else [s[0]] + Head(s[1..])
  }

  lemma {:induction false} HeadOf(p: string, rest: string)
    requires SeparatorFree(p)
    ensures Head(p + [SEPARATOR] + rest) == p
  {
    var whole := p + [SEPARATOR] + rest;
    if p != "" {
      HeadOf(p[1..], rest);
      assert whole[0] == p[0] && whole[1..] == p[1..] + [SEPARATOR] + rest;
    }
  }

  lemma SplitAtSeparator(p: string, rest: string, p': string, rest': string)
    requires SeparatorFree(p) && SeparatorFree(p') && p + [SEPARATOR] + rest == p' + [SEPARATOR] + rest'
    ensures p == p' && rest == rest'
  {
    HeadOf(p, rest);
    HeadOf(p', rest');
    assert (p + [SEPARATOR] + rest)[|p| + 1..] == rest && (p' + [SEPARATOR] + rest')[|p| + 1..] == rest';
  }

  /** The encoding is injective: no run, step and call share a preimage with any other three, not
      even where a call id itself holds the separator. */
  lemma PreimageInjective(run: string, step: string, call: string, run': string, step': string, call': string)
    requires SeparatorFree(run) && SeparatorFree(step) && SeparatorFree(run') && SeparatorFree(step')
    requires Preimage(run, step, call) == Preimage(run', step', call')
    ensures run == run' && step == step' && call == call'
  {
    assert Preimage(run, step, call) == run + [SEPARATOR] + (step + [SEPARATOR] + call);
    assert Preimage(run', step', call') == run' + [SEPARATOR] + (step' + [SEPARATOR] + call');
    SplitAtSeparator(run, step + [SEPARATOR] + call, run', step' + [SEPARATOR] + call');
    SplitAtSeparator(step, call, step', call');
  }

  /** The key of one tool call of one step. */
  function InvocationKey(run: nat, step: nat, call: string): string {
    Preimage(Numeral(run), Numeral(step), call)
  }

  lemma KeyDetermines(run: nat, step: nat, call: string, run': nat, step': nat, call': string)
    requires InvocationKey(run, step, call) == InvocationKey(run', step', call')
    ensures run == run' && step == step' && call == call'
  {
    hide Numeral, Preimage;
    NumeralFree(run);
    NumeralFree(step);
    NumeralFree(run');
    NumeralFree(step');
    PreimageInjective(Numeral(run), Numeral(step), call, Numeral(run'), Numeral(step'), call');
    NumeralInjective(run, run');
    NumeralInjective(step, step');
  }

  lemma NumeralFree(n: nat)
    ensures SeparatorFree(Numeral(n))
  {
    assert AllDigits(Numeral(n));
  }

  /** What the digest has been fed, update by update, names the run, the step and the call and no
      others. */
  method DeriveKey(run: nat, step: nat, call: string) returns (fed: string)
    ensures fed == InvocationKey(run, step, call)
    ensures forall r: nat, s: nat, c: string :: fed == InvocationKey(r, s, c) ==> r == run && s == step && c == call
  {
    fed := "";
    fed := fed + Numeral(run);
    fed := fed + [SEPARATOR];
    fed := fed + Numeral(step);
    fed := fed + [SEPARATOR];
    fed := fed + call;
    assert fed == InvocationKey(run, step, call);
    forall r: nat, s: nat, c: string | fed == InvocationKey(r, s, c) ensures r == run && s == step && c == call {
      KeyDetermines(run, step, call, r, s, c);
    }
  }

  /** The preimage reads back: the run up to the first separator, the step up to the next, and everything
      after it is the call. */
  lemma PreimageReadsBack(run: string, step: string, call: string)
    requires SeparatorFree(run) && SeparatorFree(step)
    ensures var key := Preimage(run, step, call);
            && Head(key) == run && |run| + 1 <= |key|
            && var rest := key[|run| + 1..];
               Head(rest) == step && |step| + 1 <= |rest| && rest[|step| + 1..] == call
  {
    hide Head;
    var key, rest := Preimage(run, step, call), step + [SEPARATOR] + call;
    assert key == run + [SEPARATOR] + rest;
    HeadOf(run, rest);
    HeadOf(step, call);
    assert key[|run| + 1..] == rest;
    assert rest[|step| + 1..] == call;
  }

  /** So a key reads back as the run's number, the step's and the call. */
  lemma KeyReadsBack(run: nat, step: nat, call: string)
    ensures var key := InvocationKey(run, step, call);
            && Head(key) == Numeral(run) && |Numeral(run)| + 1 <= |key|
            && var rest := key[|Numeral(run)| + 1..];
               Head(rest) == Numeral(step) && |Numeral(step)| + 1 <= |rest| && rest[|Numeral(step)| + 1..] == call
  {
    hide Numeral, Head, Preimage;
    NumeralFree(run);
    NumeralFree(step);
    PreimageReadsBack(Numeral(run), Numeral(step), call);
  }
}
