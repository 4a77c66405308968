// The small languages the code recognises, and exactly what is in each: event types, integers with
// underscores, element ids, blanks, and the order of ids.
module Spellings {
  import opened EventTypes
  import opened Digits
  import Dec = Decimals
  import opened Artifacts
  import opened Filing
  import opened Diligence
  import Doc = Documents

  // ----- words with a separator between them --------------------------------------------

  function Separated(words: seq<string>, separator: char): string {
    if |words| <= 1 then (if words == [] then "" else words[0])
    else Separated(words[..|words| - 1], separator) + [separator] + words[|words| - 1]
  }

  predicate Words(words: seq<string>, ok: char -> bool) {
    words != [] && forall i :: 0 <= i < |words| ==> words[i] != "" && forall k :: 0 <= k < |words[i]| ==> ok(words[i][k])
  }

  /** Letters with single separators strictly between them. */
  predicate Joint(s: string, separator: char, ok: char -> bool) {
    && s != "" && s[0] != separator && s[|s| - 1] != separator
    && (forall i :: 0 <= i < |s| ==> ok(s[i]) || s[i] == separator)
    && (forall i :: 0 <= i < |s| - 1 ==> s[i] != separator || s[i + 1] != separator)
  }

  lemma {:induction false} Splits(s: string, separator: char, ok: char -> bool) returns (words: seq<string>)
    requires Joint(s, separator, ok) && !ok(separator)
    ensures Words(words, ok) && s == Separated(words, separator) && (separator in s <==> |words| >= 2)
  {
    var k := |s| - 1;
    if k == 0 {
      words := [s];
    } else if s[k - 1] == separator {
      var before := Splits(s[..k - 1], separator, ok);
      words := before + [[s[k]]];
      assert words[..|before|] == before;
      assert s == s[..k - 1] + [separator] + [s[k]];
    } else {
      var before := Splits(s[..k], separator, ok);
      words := LastGrows(before, separator, ok, s[k]);
      assert s == s[..k] + [s[k]];
    }
  }

  lemma LastGrows(before: seq<string>, separator: char, ok: char -> bool, c: char) returns (words: seq<string>)
    requires Words(before, ok) && ok(c)
    ensures Words(words, ok) && |words| == |before| && Separated(words, separator) == Separated(before, separator) + [c]
  {
    var n := |before| - 1;
    words := before[..n] + [before[n] + [c]];
    assert words[..n] == before[..n];
  }

  lemma {:induction false} Joins(words: seq<string>, separator: char, ok: char -> bool)
    requires Words(words, ok) && !ok(separator)
    ensures var s := Separated(words, separator); Joint(s, separator, ok) && (separator in s <==> |words| >= 2)
  {
    var n := |words| - 1;
    var last := words[n];
    assert ok(last[0]) && ok(last[|last| - 1]) && separator !in last;
    if n > 0 {
      Joins(words[..n], separator, ok);
      JointMore(Separated(words[..n], separator), separator, ok, last);
    }
  }

  lemma JointMore(before: string, separator: char, ok: char -> bool, last: string)
    requires Joint(before, separator, ok) && !ok(separator) && last != "" && forall k :: 0 <= k < |last| ==> ok(last[k])
    ensures var s := before + [separator] + last; Joint(s, separator, ok) && separator in s
  {
    var s := before + [separator] + last;
    assert s[|before|] == separator;
    forall i | 0 <= i < |s| - 1 ensures s[i] != separator || s[i + 1] != separator {
      if i > |before| {
        assert s[i] == last[i - |before| - 1];
      } else if i == |before| {
        assert s[i + 1] == last[0];
      }
    }
  }

  // ----- event types --------------------------------------------------------------------

  const CAPITALS: string := "ABCDEFGHIJKLMNOPQRSTUVWXYZ"

  const SMALL: string := "abcdefghijklmnopqrstuvwxyz"

  lemma CapitalIs(c: char)
    ensures 'A' <= c <= 'Z' <==> c in CAPITALS
  {
    if 'A' <= c <= 'Z' {
      assert CAPITALS[c as int - 'A' as int] == c;
    }
  }

  lemma SmallIs(c: char)
    ensures 'a' <= c <= 'z' <==> c in SMALL
  {
    if 'a' <= c <= 'z' {
      assert SMALL[c as int - 'a' as int] == c;
    }
  }

  lemma DigitIs(c: char)
    ensures IsDigit(c) <==> c in "0123456789"
  {
    if IsDigit(c) {
      assert "0123456789"[c as int - '0' as int] == c;
    }
  }

  predicate LowerOrDigit(c: char) {
    c in SMALL || c in "0123456789"
  }

  /** The shape of events.type is two or more words of small letters and digits with dots between. */
  lemma ShapeExactly(s: string)
    ensures Shape(s) <==> exists words :: |words| >= 2 && Words(words, LowerOrDigit) && s == Separated(words, '.')
  {
    assert forall c :: AlphaNumeric(c) <==> LowerOrDigit(c) by {
      forall c ensures AlphaNumeric(c) <==> LowerOrDigit(c) {
        LettersAre(c);
      }
    }
    hide AlphaNumeric, LowerOrDigit;
    assert !LowerOrDigit('.') by { DotIsNone(); }
    if Shape(s) {
      var words := Splits(s, '.', LowerOrDigit);
    }
    if words :| |words| >= 2 && Words(words, LowerOrDigit) && s == Separated(words, '.') {
      Joins(words, '.', LowerOrDigit);
    }
  }

  lemma DotIsNone()
    ensures !LowerOrDigit('.')
  {
    hide SMALL;
    SmallIs('.');
    DigitIs('.');
  }

  lemma LettersAre(c: char)
    ensures AlphaNumeric(c) <==> LowerOrDigit(c)
  {
    hide SMALL;
    SmallIs(c);
    DigitIs(c);
  }

  // ----- int() --------------------------------------------------------------------------

  function Flat(words: seq<string>): string {
    if words == [] then "" else Flat(words[..|words| - 1]) + words[|words| - 1]
  }

  lemma GroupedExactly(s: string)
    ensures Grouped(s) <==> exists groups :: Words(groups, IsDigit) && s == Separated(groups, '_')
  {
    assert Grouped(s) <==> Joint(s, '_', IsDigit);
    if Grouped(s) {
      var groups := Splits(s, '_', IsDigit);
    }
    if groups :| Words(groups, IsDigit) && s == Separated(groups, '_') {
      Joins(groups, '_', IsDigit);
    }
  }

  predicate Sign(s: string) {
    s == "" || s == "+" || s == "-"
  }

  lemma {:induction false} UngroupedConcat(a: string, b: string)
    requires forall i :: 0 <= i < |a + b| ==> IsDigit((a + b)[i]) || (a + b)[i] == '_'
    requires forall i :: 0 <= i < |a| ==> IsDigit(a[i]) || a[i] == '_'
    requires forall i :: 0 <= i < |b| ==> IsDigit(b[i]) || b[i] == '_'
    ensures Ungrouped(a + b) == Ungrouped(a) + Ungrouped(b)
  {
    if b == "" {
      assert a + b == a;
    } else {
      UngroupedConcat(a, b[..|b| - 1]);
      assert (a + b)[..|a + b| - 1] == a + b[..|b| - 1];
    }
  }

  lemma {:induction false} UngroupedPlain(s: string)
    requires forall i :: 0 <= i < |s| ==> IsDigit(s[i])
    ensures Ungrouped(s) == s
  {
    if s != "" {
      UngroupedPlain(s[..|s| - 1]);
      assert s == s[..|s| - 1] + [s[|s| - 1]];
    }
  }

  lemma {:induction false} UngroupedIs(groups: seq<string>)
    requires Words(groups, IsDigit)
    ensures Grouped(Separated(groups, '_')) && Ungrouped(Separated(groups, '_')) == Flat(groups)
  {
    var n := |groups| - 1;
    GroupedExactly(Separated(groups, '_'));
    UngroupedPlain(groups[n]);
    if n == 0 {
      assert groups[..0] == [] && "" + groups[0] == groups[0];
    } else {
      UngroupedIs(groups[..n]);
      var before := Separated(groups[..n], '_');
      UngroupedConcat(before, "_");
      assert "_"[..0] == "" && Ungrouped("_") == "" && Ungrouped(before) + "" == Ungrouped(before);
      UngroupedConcat(before + "_", groups[n]);
    }
  }

  /** What int() reads: blanks around, a sign or none, and groups of digits with single underscores
      between; it is refused past 4300 digits. */
  lemma IntReads(left: string, sign: string, groups: seq<string>, right: string)
    requires Doc.Blank(left) && Doc.Blank(right) && Sign(sign) && Words(groups, IsDigit)
    ensures forall i :: 0 <= i < |Flat(groups)| ==> IsDigit(Flat(groups)[i])
    ensures PyInt(left + (sign + Separated(groups, '_')) + right)
            == if |Flat(groups)| > 4300 then None
               else Some(if sign == "-" then 0 - Value(Flat(groups)) else Value(Flat(groups)))
  {
    hide Strip, Value, Separated, Flat, Ungrouped, Doc.Blank;
    var body := Separated(groups, '_');
    UngroupedIs(groups);
    assert IsDigit(body[0]) && IsDigit(body[|body| - 1]);
    EndsTight(sign, body);
    Doc.StripExactly(left, sign + body, right);
    BodyApart(sign, body);
  }

  lemma EndsTight(sign: string, body: string)
    requires Sign(sign) && body != "" && IsDigit(body[0]) && IsDigit(body[|body| - 1])
    ensures Doc.Tight(sign + body)
  {
    var s := sign + body;
    assert s[|s| - 1] == body[|body| - 1];
    assert s[0] == if sign == "" then body[0] else sign[0];
  }

  /** And nothing else is read. */
  lemma IntRefuses(left: string, core: string, right: string)
    requires Doc.Blank(left) && Doc.Blank(right) && Doc.Tight(core)
    requires PyInt(left + core + right).Some?
    ensures exists sign, groups :: Sign(sign) && Words(groups, IsDigit)
                                   && core == sign + Separated(groups, '_')
  {
    hide Strip, Value, Separated, Ungrouped, Grouped, Doc.Blank, Doc.Tight, Dec.Unsigned;
    Doc.StripExactly(left, core, right);
    GroupedExactly(Dec.Unsigned(core));
    var groups :| Words(groups, IsDigit) && Dec.Unsigned(core) == Separated(groups, '_');
    var sign := SignOf(core);
    assert core == sign + Separated(groups, '_');
  }

  lemma SignOf(core: string) returns (sign: string)
    ensures Sign(sign) && core == sign + Dec.Unsigned(core)
  {
    sign := if core != "" && (core[0] == '-' || core[0] == '+') then [core[0]] else "";
  }

  /** What str() prints, digit by digit. */
  lemma NumeralExactly(n: nat, d: nat)
    requires d < 10
    ensures Numeral(10 * n + d) == (if n == 0 then "" else Numeral(n)) + ["0123456789"[d]]
  {
    assert "0123456789"[d] as int == '0' as int + d;
  }

  // ----- Decimal() ----------------------------------------------------------------------

  /** An exponent part: its marker, its sign and its digits. */
  datatype Exponent = Absent | Present(marker: char, sign: string, digits: string) {
    predicate Good() { Present? ==> (marker == 'e' || marker == 'E') && Sign(sign) && AllDigits(digits) }
    function Text(): string { if Absent? then "" else [marker] + (sign + digits) }
    function Number(): int
      requires Good()
    {
      if Absent? then 0 else if sign == "-" then 0 - Value(digits) else Value(digits)
    }
  }

  predicate Mantissal(whole: string, fraction: string, point: bool) {
    Dec.Digital(whole) && Dec.Digital(fraction) && whole + fraction != "" && (!point ==> fraction == "")
  }

  lemma MantissaReads(whole: string, fraction: string, point: bool)
    requires Mantissal(whole, fraction, point)
    ensures var m := Dec.Written(whole, fraction, point);
            && Dec.Mantissa(m) == Some((Value(whole + fraction), |fraction|))
            && m != "" && m[0] != '+' && m[0] != '-' && forall i :: 0 <= i < |m| ==> m[i] !in "eE"
  {
    var m := Dec.Written(whole, fraction, point);
    Dec.FindAt(m, ".", 0, |whole|);
    assert m[..|whole|] == whole && (point ==> m[|whole| + 1..] == fraction);
  }

  lemma IntegerReads(sign: string, digits: string)
    requires Sign(sign) && AllDigits(digits)
    ensures Dec.Integer(sign + digits) == Some(if sign == "-" then 0 - Value(digits) else Value(digits))
  {
    BodyApart(sign, digits);
  }

  lemma ExponentReads(m: string, exponent: Exponent)
    requires exponent.Good() && m != "" && forall i :: 0 <= i < |m| ==> m[i] !in "eE"
    ensures var body := m + exponent.Text();
            && Dec.Find(body, "eE", 0) == |m| && body[..|m|] == m
            && (if exponent.Absent? then |m| == |body|
                else |m| < |body| && Dec.Integer(body[|m| + 1..]) == Some(exponent.Number()))
  {
    hide Dec.Integer, Sign, AllDigits, Dec.Find, Value;
    var body := m + exponent.Text();
    Dec.FindAt(body, "eE", 0, |m|);
    if exponent.Present? {
      assert body[|m| + 1..] == exponent.sign + exponent.digits;
      IntegerReads(exponent.sign, exponent.digits);
    }
  }

  lemma BodyApart(sign: string, body: string)
    requires Sign(sign) && body != "" && body[0] != '+' && body[0] != '-'
    ensures Dec.Unsigned(sign + body) == body && (Dec.Minus(sign + body) <==> sign == "-")
  {
    assert sign == "" ==> sign + body == body;
    assert sign != "" ==> (sign + body)[1..] == body;
  }

  /** Parse by its parts: the text past the sign, cut at its marker. */
  lemma ParseCut(s: string, body: string, m: string, power: Option<int>, mantissa: Option<(nat, nat)>)
    requires body == Dec.Unsigned(s)
    requires var e := Dec.Find(body, "eE", 0);
             m == body[..e] && power == (if e == |body| then Some(0) else Dec.Integer(body[e + 1..]))
    requires mantissa == Dec.Mantissa(m)
    ensures Dec.Parse(s) == if power.None? || mantissa.None? then None
                            else Some(Dec.Decimal(Dec.Minus(s), mantissa.value.0, power.value - mantissa.value.1))
  {
    hide Dec.Mantissa, Dec.Integer, Dec.Find, Dec.Unsigned, Dec.Minus;
  }

  /** What Decimal() reads: a sign or none, digits with at most one point among them, and an exponent or
      none, its marker of either case; and the value and exponent it makes of them. */
  lemma DecimalReads(sign: string, whole: string, fraction: string, point: bool, exponent: Exponent)
    requires Sign(sign) && Mantissal(whole, fraction, point) && exponent.Good()
    ensures Dec.Parse(sign + (Dec.Written(whole, fraction, point) + exponent.Text()))
            == Some(Dec.Decimal(sign == "-", Value(whole + fraction), exponent.Number() - |fraction|))
  {
    hide Dec.Parse, Dec.Mantissa, Dec.Integer, Dec.Find, Dec.Unsigned, Dec.Minus, Dec.Written, Sign, Value;
    var m := Dec.Written(whole, fraction, point);
    MantissaReads(whole, fraction, point);
    ExponentReads(m, exponent);
    BodyApart(sign, m + exponent.Text());
    ParseCut(sign + (m + exponent.Text()), m + exponent.Text(), m, Some(exponent.Number()), Some((Value(whole + fraction), |fraction|)));
  }

  lemma ExponentParts(body: string, e: nat) returns (exponent: Exponent)
    requires e == Dec.Find(body, "eE", 0) && (e < |body| ==> Dec.Integer(body[e + 1..]).Some?)
    ensures exponent.Good() && body == body[..e] + exponent.Text()
  {
    hide Dec.Find, Value;
    exponent := Absent;
    if e < |body| {
      var power := SignOf(body[e + 1..]);
      exponent := Present(body[e], power, Dec.Unsigned(body[e + 1..]));
      assert body == body[..e] + ([body[e]] + body[e + 1..]);
    } else {
      assert body[..e] + "" == body;
    }
  }

  /** And it reads nothing else. */
  lemma DecimalRefuses(s: string) returns (sign: string, whole: string, fraction: string, point: bool, exponent: Exponent)
    requires Dec.Parse(s).Some?
    ensures Sign(sign) && Mantissal(whole, fraction, point) && exponent.Good()
    ensures s == sign + (Dec.Written(whole, fraction, point) + exponent.Text())
  {
    hide Dec.Parse, Dec.Mantissa, Dec.Integer, Dec.Find, Dec.Unsigned, Dec.Minus, Dec.Written, Value, Mantissal;
    sign := SignOf(s);
    var body := Dec.Unsigned(s);
    var e := Dec.Find(body, "eE", 0);
    ParseCut(s, body, body[..e], if e == |body| then Some(0) else Dec.Integer(body[e + 1..]), Dec.Mantissa(body[..e]));
    whole, fraction, point := MantissaParts(body[..e]);
    exponent := ExponentParts(body, e);
  }

  lemma MantissaParts(m: string) returns (whole: string, fraction: string, point: bool)
    requires Dec.Mantissa(m).Some?
    ensures Mantissal(whole, fraction, point) && m == Dec.Written(whole, fraction, point)
  {
    hide Value;
    var p := Dec.Find(m, ".", 0);
    whole, fraction, point := m[..p], if p == |m| then "" else m[p + 1..], p < |m|;
    forall i | 0 <= i < |whole| ensures IsDigit(whole[i]) {
      assert (whole + fraction)[i] == whole[i];
    }
    forall i | 0 <= i < |fraction| ensures IsDigit(fraction[i]) {
      assert (whole + fraction)[|whole| + i] == fraction[i];
    }
    assert p < |m| ==> m == m[..p] + "." + m[p + 1..];
  }

  // ----- ids ----------------------------------------------------------------------------

  const ID_FIRST: string := CAPITALS + SMALL + "_"

  const ID_REST: string := ID_FIRST + "0123456789.-"

  lemma IdStartIs(c: char)
    ensures IdStart(c) <==> c in ID_FIRST
  {
    CapitalIs(c);
    SmallIs(c);
    hide CAPITALS, SMALL;
    assert c in ID_FIRST <==> c in CAPITALS || c in SMALL || c in "_";
  }

  lemma IdRestIs(c: char)
    ensures IdRest(c) <==> c in ID_REST
  {
    IdStartIs(c);
    hide IdStart;
    assert ID_REST == ID_FIRST + "0123456789.-";
    assert c in ID_REST <==> c in ID_FIRST || c in "0123456789.-";
    if IsDigit(c) {
      assert "0123456789.-"[c as int - '0' as int] == c;
    } else if c == '.' {
      assert "0123456789.-"[10] == c;
    } else if c == '-' {
      assert "0123456789.-"[11] == c;
    }
  }

  /** A fragment is '#' and an id of one to 128 characters that begins with a letter or an underscore. */
  lemma FragmentExactly(s: string)
    ensures Fragment(s) <==> 2 <= |s| <= 129 && s[0] == '#' && s[1] in ID_FIRST && forall i :: 2 <= i < |s| ==> s[i] in ID_REST
  {
    forall c ensures (IdStart(c) <==> c in ID_FIRST) && (IdRest(c) <==> c in ID_REST) {
      IdStartIs(c);
      IdRestIs(c);
    }
    hide IdStart, IdRest;
    if |s| >= 2 {
      assert s[1] == s[1..][0];
      assert forall i :: 2 <= i < |s| ==> s[i] == s[1..][i - 1];
      assert forall i :: 1 <= i < |s[1..]| ==> s[1..][i] == s[i + 1];
    }
  }

  /** Ids are ordered by the first character in which they differ, a shorter one before its extensions. */
  lemma {:induction false} LessExactly(a: string, b: string)
    ensures Less(a, b) <==> exists k :: 0 <= k <= |a| && k < |b| && a[..k] == b[..k] && (k == |a| || a[k] < b[k])
  {
    if a == "" || b == "" {
      assert a == "" && b != "" ==> a[..0] == b[..0];
    } else if a[0] != b[0] {
      assert a[..0] == b[..0];
      forall k | 0 < k <= |a| && k < |b| ensures a[..k] != b[..k] {
        assert a[..k][0] != b[..k][0];
      }
    } else {
      LessExactly(a[1..], b[1..]);
      var u, v := a[1..], b[1..];
      if k :| 0 <= k <= |u| && k < |v| && u[..k] == v[..k] && (k == |u| || u[k] < v[k]) {
        assert a[..k + 1] == [a[0]] + u[..k] && b[..k + 1] == [b[0]] + v[..k];
        assert k + 1 == |a| || a[k + 1] < b[k + 1];
      }
      if k :| 0 <= k <= |a| && k < |b| && a[..k] == b[..k] && (k == |a| || a[k] < b[k]) {
        assert k > 0;
        assert u[..k - 1] == a[..k][1..] && v[..k - 1] == b[..k][1..];
        assert k - 1 == |u| || u[k - 1] < v[k - 1];
      }
    }
  }

  // ----- blanks -------------------------------------------------------------------------

  /** The padding an event type is trimmed of, code point by code point. */
  lemma PaddingExactly(c: char)
    ensures IsPadding(c) <==>
              c as int in {0x09, 0x0a, 0x0b, 0x0c, 0x0d, 0x20, 0xa0, 0x1680, 0x2000, 0x2001, 0x2002, 0x2003, 0x2004, 0x2005,
                           0x2006, 0x2007, 0x2008, 0x2009, 0x200a, 0x200b, 0x200c, 0x200d, 0x200e, 0x200f, 0x2028, 0x2029,
                           0x202f, 0x205f, 0x2060, 0x3000, 0xfeff}
  {
  }

  /** What str.strip() takes off, code point by code point. */
  lemma SpaceExactly(c: char)
    ensures IsSpace(c) <==>
              c as int in {0x09, 0x0a, 0x0b, 0x0c, 0x0d, 0x1c, 0x1d, 0x1e, 0x1f, 0x20, 0x85, 0xa0, 0x1680, 0x2000, 0x2001, 0x2002,
                           0x2003, 0x2004, 0x2005, 0x2006, 0x2007, 0x2008, 0x2009, 0x200a, 0x2028, 0x2029, 0x202f, 0x205f, 0x3000}
  {
  }
}
