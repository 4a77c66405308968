// Event type names: the canonicaliser the append functions share, the shape CHECK on
// events.type, and the five append paths' rules over them.
module EventTypes {

  datatype Option<+T> = None | Some(value: T)

  // ----- the canonical form -------------------------------------------------------------

  /** The padding class: Postgres' \s, and the listed invisible code points. */
  predicate IsPadding(c: char) {
    var n := c as int;
    || n == 0x20 || 0x09 <= n <= 0x0d
    || n == 0xa0 || n == 0x1680
    || 0x2000 <= n <= 0x200f
    || n == 0x2028 || n == 0x2029 || n == 0x202f || n == 0x205f || n == 0x2060
    || n == 0x3000 || n == 0xfeff
  }

  function TrimLeft(s: string): string {
    if s != "" && IsPadding(s[0]) then TrimLeft(s[1..]) else s
  }

  function TrimRight(s: string): string {
    if s != "" && IsPadding(s[|s| - 1]) then TrimRight(s[..|s| - 1]) else s
  }

  function LowerChar(c: char): char {
    if 'A' <= c <= 'Z' then (c as int + 32) as char else c
  }

  function Lower(s: string): (r: string)
    ensures |r| == |s| && forall i :: 0 <= i < |s| ==> r[i] == LowerChar(s[i])
  {
    seq(|s|, i requires 0 <= i < |s| => LowerChar(s[i]))
  }

  /** Trim the padding at both ends, then fold case; the interior is left alone. */
  function Canonical(s: string): string {
    Lower(TrimRight(TrimLeft(s)))
  }

  predicate AlphaNumeric(c: char) {
    'a' <= c <= 'z' || '0' <= c <= '9'
  }

  /** The CHECK on events.type: dot-separated non-empty runs of [a-z0-9], at least two of them. */
  predicate Shape(s: string) {
    && '.' in s
    && (forall i :: 0 <= i < |s| ==> AlphaNumeric(s[i]) || s[i] == '.')
    && s[0] != '.' && s[|s| - 1] != '.'
    && (forall i :: 0 <= i < |s| - 1 ==> s[i] != '.' || s[i + 1] != '.')
  }

  // ----- the five append paths ----------------------------------------------------------

  const RUN_LIFECYCLE: seq<string> := ["run.requested", "run.cancelled"]
  const TERMINAL_APPEND: seq<string> := ["run.completed", "run.failed"]
  const DECISIONS: seq<string> := ["approval.granted", "approval.rejected"]
  const RESERVED: string := "policy.decision"

  /** The names append_step_event refuses, after its replacement. */
  const NON_STEP: seq<string> := [RESERVED] + RUN_LIFECYCLE + TERMINAL_APPEND + DECISIONS

  datatype Path = StepPath | LifecyclePath | PolicyPath | TerminalPath | DecisionPath

  datatype TypeError = NullType | NotNullViolation | InsufficientPrivilege | MalformedType | NullDecision

  datatype Gate = Admit(stored: string) | Refuse(error: TypeError)

  /** What each path decides about the type argument, and the form it would store. */
  function TypeGate(path: Path, raw: Option<string>): Gate {
    match path
    case StepPath =>
      if raw.None? then Refuse(NullType)
      else if Canonical(raw.value) in NON_STEP then Refuse(InsufficientPrivilege)
      else if !Shape(Canonical(raw.value)) then Refuse(MalformedType)
      else Admit(Canonical(raw.value))
    case LifecyclePath =>
      // A null argument makes the NOT IN test null, so it is the column that refuses it.
      if raw.None? then Refuse(NotNullViolation)
      else if Canonical(raw.value) !in RUN_LIFECYCLE then Refuse(InsufficientPrivilege)
      else Admit(Canonical(raw.value))
    case PolicyPath =>
      Admit(RESERVED)
    case TerminalPath =>
      if raw.None? then Refuse(NullType)
      else if Lower(raw.value) !in TERMINAL_APPEND then Refuse(InsufficientPrivilege)
      else Admit(Lower(raw.value))
    case DecisionPath =>
      if raw.None? then Refuse(NullDecision)
      else if Lower(raw.value) !in DECISIONS then Refuse(InsufficientPrivilege)
      else Admit(Lower(raw.value))
  }

  /** The one path whose vocabulary a canonical name belongs to. */
  function Owner(name: string): Path {
    if name == RESERVED then PolicyPath
    else if name in RUN_LIFECYCLE then LifecyclePath
    else if name in TERMINAL_APPEND then TerminalPath
    else if name in DECISIONS then DecisionPath
    else StepPath
  }

  /** Equal up to ASCII case, position by position. */
  predicate EqualFold(s: string, t: string) {
    Lower(s) == Lower(t)
  }

  /** raw is a spelling of name, with padding around it and case aside. */
  ghost predicate Spells(raw: string, name: string) {
    exists i, j :: 0 <= i <= j <= |raw| && PaddedSpelling(raw, i, j, name)
  }

  ghost predicate PaddedSpelling(raw: string, i: nat, j: nat, name: string)
    requires i <= j <= |raw|
  {
    && (forall k :: 0 <= k < i || j <= k < |raw| ==> IsPadding(raw[k]))
    && EqualFold(raw[i..j], name)
  }

  lemma {:induction false} TrimLeftSplits(s: string) returns (i: nat)
    ensures i <= |s| && TrimLeft(s) == s[i..]
    ensures forall k :: 0 <= k < i ==> IsPadding(s[k])
    ensures i < |s| ==> !IsPadding(s[i])
  {
    i := 0;
    if s != "" && IsPadding(s[0]) {
      var j := TrimLeftSplits(s[1..]);
      i := j + 1;
      assert s[1..][j..] == s[i..];
      assert forall k :: 1 <= k < i ==> s[k] == s[1..][k - 1];
    }
  }

  lemma {:induction false} TrimRightSplits(s: string) returns (j: nat)
    ensures j <= |s| && TrimRight(s) == s[..j]
    ensures forall k :: j <= k < |s| ==> IsPadding(s[k])
    ensures j > 0 ==> !IsPadding(s[j - 1])
  {
    j := |s|;
    if s != "" && IsPadding(s[|s| - 1]) {
      j := TrimRightSplits(s[..|s| - 1]);
      assert s[..|s| - 1][..j] == s[..j];
      assert forall k :: j <= k < |s| - 1 ==> s[k] == s[..|s| - 1][k];
    }
  }

  /** A string with no padding at its ends and no capital is its own canonical form. */
  lemma CanonicalFixed(s: string)
    requires s != "" && !IsPadding(s[0]) && !IsPadding(s[|s| - 1])
    requires forall i :: 0 <= i < |s| ==> LowerChar(s[i]) == s[i]
    ensures Canonical(s) == s && Lower(s) == s
  {
    assert TrimLeft(s) == s && TrimRight(s) == s;
  }

  lemma ShapeIsFixed(s: string)
    requires Shape(s)
    ensures Canonical(s) == s && Lower(s) == s
  {
    assert AlphaNumeric(s[0]) && AlphaNumeric(s[|s| - 1]);
    CanonicalFixed(s);
  }

  lemma RunNamesHaveShape()
    ensures Shape("run.requested") && Shape("run.cancelled") && Shape("run.completed") && Shape("run.failed")
  {
    hide Shape;
    DottedPair("run", "requested", "run.requested");
    DottedPair("run", "cancelled", "run.cancelled");
    DottedPair("run", "completed", "run.completed");
    DottedPair("run", "failed", "run.failed");
  }

  lemma OtherNamesHaveShape()
    ensures Shape(RESERVED) && Shape("approval.granted") && Shape("approval.rejected")
  {
    hide Shape;
    DottedPair("policy", "decision", RESERVED);
    DottedPair("approval", "granted", "approval.granted");
    DottedPair("approval", "rejected", "approval.rejected");
  }

  lemma ReservedNamesHaveShape(name: string)
    requires name in NON_STEP
    ensures Shape(name)
  {
    hide Shape;
    RunNamesHaveShape();
    OtherNamesHaveShape();
    assert name == RESERVED || name in RUN_LIFECYCLE || name in TERMINAL_APPEND || name in DECISIONS;
  }

  lemma DottedPair(a: string, b: string, name: string)
    requires a != "" && forall i :: 0 <= i < |a| ==> AlphaNumeric(a[i])
    requires b != "" && forall i :: 0 <= i < |b| ==> AlphaNumeric(b[i])
    requires name == a + "." + b
    ensures Shape(name)
  {
    assert name[|a|] == '.';
  }

  lemma CanonicalSplits(raw: string) returns (i: nat, j: nat)
    ensures i <= j <= |raw| && Canonical(raw) == Lower(raw[i..j])
    ensures forall k :: 0 <= k < i || j <= k < |raw| ==> IsPadding(raw[k])
    ensures i < j ==> !IsPadding(raw[i]) && !IsPadding(raw[j - 1])
  {
    i := TrimLeftSplits(raw);
    var rest := raw[i..];
    var n := TrimRightSplits(rest);
    j := i + n;
    assert rest[..n] == raw[i..j];
    forall k | j <= k < |raw| ensures IsPadding(raw[k]) {
      assert raw[k] == rest[k - i];
    }
    if n > 0 {
      assert raw[j - 1] == rest[n - 1];
    }
  }

  /** Canonicalising yields a name exactly when the input spells it up to case and outer padding. */
  lemma CanonicalIffSpells(raw: string, name: string)
    requires Shape(name)
    ensures Canonical(raw) == name <==> Spells(raw, name)
  {
    ShapeIsFixed(name);
    var i, j := CanonicalSplits(raw);
    if Canonical(raw) == name {
      assert PaddedSpelling(raw, i, j, name);
    }
    if Spells(raw, name) {
      var i', j' :| 0 <= i' <= j' <= |raw| && PaddedSpelling(raw, i', j', name);
      SpellingIsTheTrim(raw, i', j', name, i, j);
    }
  }

  lemma SpellingIsTheTrim(raw: string, i: nat, j: nat, name: string, i': nat, j': nat)
    requires Shape(name) && Lower(name) == name
    requires i <= j <= |raw| && PaddedSpelling(raw, i, j, name)
    requires i' <= j' <= |raw|
    requires forall k :: 0 <= k < i' ==> IsPadding(raw[k])
    requires i' < j' ==> !IsPadding(raw[i']) && !IsPadding(raw[j' - 1])
    requires forall k :: j' <= k < |raw| ==> IsPadding(raw[k])
    ensures i == i' && j == j'
  {
    var core := raw[i..j];
    assert |core| == |name| && Lower(core)[0] == name[0] && Lower(core)[|name| - 1] == name[|name| - 1];
    assert AlphaNumeric(name[0]) && AlphaNumeric(name[|name| - 1]);
    assert core[0] == raw[i] && core[|name| - 1] == raw[j - 1];
    assert !IsPadding(raw[i]) && !IsPadding(raw[j - 1]);
  }

  // ----- what the five paths store ------------------------------------------------------

  lemma NonStepSplits(name: string)
    ensures name in NON_STEP <==> name == RESERVED || name in RUN_LIFECYCLE || name in TERMINAL_APPEND || name in DECISIONS
  {
  }

  lemma VocabulariesDisjoint(name: string)
    ensures name in RUN_LIFECYCLE ==> name !in TERMINAL_APPEND && name !in DECISIONS && name != RESERVED
    ensures name in TERMINAL_APPEND ==> name !in DECISIONS && name != RESERVED
    ensures name in DECISIONS ==> name != RESERVED
  {
  }

  /** Whatever is stored has the CHECK's shape, is a fixed point of the canonicaliser, and
      belongs to the vocabulary of the path that stored it and of no other. */
  lemma StoredTypeIsCanonical(path: Path, raw: Option<string>)
    requires TypeGate(path, raw).Admit?
    ensures var t := TypeGate(path, raw).stored;
            Shape(t) && Canonical(t) == t && Owner(t) == path
  {
    hide Shape, Canonical, Lower, NON_STEP, RUN_LIFECYCLE, TERMINAL_APPEND, DECISIONS, RESERVED;
    var t := TypeGate(path, raw).stored;
    NonStepSplits(t);
    VocabulariesDisjoint(t);
    if t in NON_STEP {
      ReservedNamesHaveShape(t);
    }
    ShapeIsFixed(t);
  }

  /** The paths partition the namespace: a name of the canonical shape can be stored by its
      owning path, and by that path alone whatever the argument. */
  lemma PathsPartitionNames(name: string, path: Path)
    requires Shape(name)
    ensures (exists raw :: TypeGate(path, raw) == Admit(name)) <==> path == Owner(name)
  {
    ShapeIsFixed(name);
    if path == Owner(name) {
      assert TypeGate(path, Some(name)) == Admit(name);
    } else {
      forall raw ensures TypeGate(path, raw) != Admit(name) {
        if TypeGate(path, raw) == Admit(name) {
          StoredTypeIsCanonical(path, raw);
        }
      }
    }
  }

  /** The step path refuses every spelling of a reserved name as a privilege error, and
      never stores a name its caller did not spell. */
  lemma StepPathDenylistIsExhaustive(raw: string)
    ensures TypeGate(StepPath, Some(raw)) == Refuse(InsufficientPrivilege)
            <==> exists name :: name in NON_STEP && Spells(raw, name)
    ensures TypeGate(StepPath, Some(raw)).Admit? ==> Spells(raw, TypeGate(StepPath, Some(raw)).stored)
  {
    var t := Canonical(raw);
    if t in NON_STEP {
      ReservedNamesHaveShape(t);
      CanonicalIffSpells(raw, t);
    }
    forall name | name in NON_STEP && Spells(raw, name) ensures t in NON_STEP {
      ReservedNamesHaveShape(name);
      CanonicalIffSpells(raw, name);
    }
    if Shape(t) {
      CanonicalIffSpells(raw, t);
    }
  }
}
