// Finite Decimal values, their canonical string and its parse.
module Decimals {
  import opened EventTypes
  import opened Digits

  /** (-1)^negative * digits * 10^exponent; values that compare equal may still differ here, and the
      canonical string tells them apart. */
  datatype Decimal = Decimal(negative: bool, digits: nat, exponent: int)

  function Zeros(n: nat): (s: string)
    ensures |s| == n && forall i :: 0 <= i < n ==> s[i] == '0'
  {
    seq(n, _ => '0')
  }

  /** A signed exponent as "%+d" prints it. */
  function Signed(n: int): string {
    if n < 0 then "-" + Numeral(-n) else "+" + Numeral(n)
  }

  /** str(d): to-scientific-string, section "Conversion syntax" of the General Decimal Arithmetic
      specification. */
  function Show(d: Decimal): string {
    var text := Numeral(d.digits);
    var left := d.exponent + |text|;
    var dot := if d.exponent <= 0 && left > -6 then left else 1;
    (if d.negative then "-" else "")
    + (if dot <= 0 then "0." + Zeros(-dot) + text
       else if dot >= |text| then text + Zeros(dot - |text|)
       else text[..dot] + "." + text[dot..])
    + (if left == dot then "" else "E" + Signed(left - dot))
  }

  // ----- parsing ------------------------------------------------------------------------

  /** The position of the first character in chars, or the length. */
  function Find(s: string, chars: string, from: nat): (k: nat)
    requires from <= |s|
    ensures from <= k <= |s|
    ensures forall i :: from <= i < k ==> s[i] !in chars
    ensures k < |s| ==> s[k] in chars
    decreases |s| - from
  {
    if from == |s| || s[from] in chars then from else Find(s, chars, from + 1)
  }

  function Unsigned(s: string): string {
    if s != "" && (s[0] == '-' || s[0] == '+') then s[1..] else s
  }

  predicate Minus(s: string) {
    s != "" && s[0] == '-'
  }

  function Integer(s: string): Option<int> {
    var text := Unsigned(s);
    if !AllDigits(text) then None else Some(if Minus(s) then 0 - Value(text) else Value(text))
  }

  /** Digits with at most one point among them: their value, and how many follow the point. */
  function Mantissa(m: string): Option<(nat, nat)> {
    var p := Find(m, ".", 0);
    var fraction := if p == |m| then "" else m[p + 1..];
    if !AllDigits(m[..p] + fraction) then None else Some((Value(m[..p] + fraction), |fraction|))
  }

  /** Decimal(s) on finite numerals: a sign, a mantissa, and an optional exponent. */
  function Parse(s: string): Option<Decimal> {
    var body := Unsigned(s);
    var e := Find(body, "eE", 0);
    var exponent := if e == |body| then Some(0) else Integer(body[e + 1..]);
    var mantissa := Mantissa(body[..e]);
    if exponent.None? || mantissa.None? then None
    else Some(Decimal(Minus(s), mantissa.value.0, exponent.value - mantissa.value.1))
  }

  // ----- round trip ---------------------------------------------------------------------

  predicate Digital(s: string) {
    forall i :: 0 <= i < |s| ==> IsDigit(s[i])
  }

  lemma {:induction false} LeadingZeros(n: nat, s: string)
    requires Digital(s)
    ensures Digital(Zeros(n) + s) && Value(Zeros(n) + s) == Value(s)
  {
    if s == "" {
      assert Zeros(n) + s == Zeros(n);
      ValueOfZeros(n);
    } else {
      LeadingZeros(n, s[..|s| - 1]);
      assert (Zeros(n) + s)[..n + |s| - 1] == Zeros(n) + s[..|s| - 1];
    }
  }

  lemma {:induction false} ValueOfZeros(n: nat)
    ensures Value(Zeros(n)) == 0
  {
    if n > 0 {
      assert Zeros(n)[..n - 1] == Zeros(n - 1);
      ValueOfZeros(n - 1);
    }
  }

  lemma IntegerOfSigned(n: int)
    ensures Integer(Signed(n)) == Some(n)
  {
    var text := Numeral(if n < 0 then -n else n);
    ValueOfNumeral(if n < 0 then -n else n);
    assert Signed(n)[1..] == text;
  }

  lemma FindAt(s: string, chars: string, from: nat, k: nat)
    requires from <= k <= |s| && forall i :: from <= i < k ==> s[i] !in chars
    requires k < |s| ==> s[k] in chars
    ensures Find(s, chars, from) == k
  {
  }

  function Written(whole: string, fraction: string, point: bool): string {
    if point then whole + "." + fraction else whole
  }

  lemma MantissaWritten(whole: string, fraction: string, point: bool)
    requires Digital(whole) && Digital(fraction) && whole != "" && (!point ==> fraction == "")
    ensures Mantissa(Written(whole, fraction, point)) == Some((Value(whole + fraction), |fraction|))
  {
    var m := Written(whole, fraction, point);
    FindAt(m, ".", 0, |whole|);
    assert m[..|whole|] == whole && (point ==> m[|whole| + 1..] == fraction);
  }

  function Tail(exponent: Option<int>): string {
    if exponent.None? then "" else "E" + Signed(exponent.value)
  }

  lemma SignSplits(negative: bool, body: string)
    requires body != "" && IsDigit(body[0])
    ensures var s := (if negative then "-" else "") + body; Unsigned(s) == body && Minus(s) == negative
  {
    assert negative ==> ("-" + body)[1..] == body;
    assert !negative ==> "" + body == body;
  }

  lemma ExponentSplits(mantissa: string, exponent: Option<int>)
    requires forall i :: 0 <= i < |mantissa| ==> mantissa[i] !in "eE"
    ensures var body := mantissa + Tail(exponent);
            && Find(body, "eE", 0) == |mantissa| && body[..|mantissa|] == mantissa
            && (exponent.None? ==> |mantissa| == |body|)
            && (exponent.Some? ==> |mantissa| < |body| && Integer(body[|mantissa| + 1..]) == exponent)
  {
    hide Integer, Signed;
    var body := mantissa + Tail(exponent);
    FindAt(body, "eE", 0, |mantissa|);
    if exponent.Some? {
      assert body[|mantissa| + 1..] == Signed(exponent.value);
      IntegerOfSigned(exponent.value);
    }
  }

  lemma ParseWritten(negative: bool, mantissa: string, exponent: Option<int>)
    requires mantissa != "" && IsDigit(mantissa[0]) && Mantissa(mantissa).Some?
    requires forall i :: 0 <= i < |mantissa| ==> mantissa[i] !in "eE"
    ensures Parse((if negative then "-" else "") + (mantissa + Tail(exponent)))
            == Some(Decimal(negative, Mantissa(mantissa).value.0,
                            (if exponent.None? then 0 else exponent.value) - Mantissa(mantissa).value.1))
  {
    hide Mantissa, Integer, Tail, Unsigned, Minus;
    SignSplits(negative, mantissa + Tail(exponent));
    ExponentSplits(mantissa, exponent);
  }

  lemma ParseParts(negative: bool, whole: string, fraction: string, point: bool, exponent: Option<int>)
    requires Digital(whole) && Digital(fraction) && whole != "" && (!point ==> fraction == "")
    ensures Parse((if negative then "-" else "") + Written(whole, fraction, point) + Tail(exponent))
            == Some(Decimal(negative, Value(whole + fraction), (if exponent.None? then 0 else exponent.value) - |fraction|))
  {
    hide Parse, Mantissa, Tail;
    MantissaWritten(whole, fraction, point);
    var sign, m := if negative then "-" else "", Written(whole, fraction, point);
    ParseWritten(negative, m, exponent);
    assert sign + m + Tail(exponent) == sign + (m + Tail(exponent));
  }

  /** Every finite Decimal is recovered from its canonical string, exponent and sign of zero
      included. */
  lemma ShowParses(d: Decimal)
    ensures Parse(Show(d)) == Some(d)
  {
    hide Parse, Signed, Value;
    var text := Numeral(d.digits);
    var left := d.exponent + |text|;
    var dot := if d.exponent <= 0 && left > -6 then left else 1;
    var exponent := if left == dot then None else Some(left - dot);
    ValueOfNumeral(d.digits);
    if dot <= 0 {
      var fraction := Zeros(-dot) + text;
      LeadingZeros(1 - dot, text);
      assert "0" + fraction == Zeros(1 - dot) + text;
      ParseParts(d.negative, "0", fraction, true, exponent);
      assert "0." + Zeros(-dot) + text == "0" + "." + fraction;
    } else if dot >= |text| {
      assert dot == |text|;
      assert text + Zeros(0) == text && text + "" == text;
      ParseParts(d.negative, text, "", false, exponent);
    } else {
      ParseParts(d.negative, text[..dot], text[dot..], true, exponent);
      assert text[..dot] + text[dot..] == text;
    }
  }

  // ----- the notation -------------------------------------------------------------------

  /** The mantissa as it is shown, with the point after the first dot digits. */
  function Pointed(text: string, dot: int): string
    requires dot <= |text|
  {
    if dot <= 0 then "0." + Zeros(-dot) + text else if dot == |text| then text else text[..dot] + "." + text[dot..]
  }

  lemma PointedStarts(text: string, dot: int)
    requires AllDigits(text) && (|text| > 1 ==> text[0] != '0') && dot <= |text|
    ensures var m := Pointed(text, dot);
            && m != "" && IsDigit(m[0]) && 'E' !in m && (dot == 1 ==> |m| == 1 || m[1] == '.')
            && (m[0] == '0' ==> |m| == 1 || m[1] == '.')
  {
  }

  /** Scientific notation is used exactly for a positive exponent or a leading digit past the sixth
      place after the point; its mantissa then has one digit before the point. No numeral has a leading
      zero but the one before a point, and a minus stands in front of exactly the negative values. */
  lemma ShowNotation(d: Decimal)
    ensures var s := Show(d);
            && (d.negative ==> s != "" && s[0] == '-')
            && var body := if d.negative then s[1..] else s;
               && body != "" && IsDigit(body[0])
               && ('E' in body <==> d.exponent > 0 || d.exponent + |Numeral(d.digits)| < -5)
               && ('E' in body && |body| > 1 ==> body[1] == '.' || body[1] == 'E')
               && (body[0] == '0' && |body| > 1 ==> body[1] == '.' || body[1] == 'E')
  {
    hide Numeral, Signed, Pointed;
    var text := Numeral(d.digits);
    var left := d.exponent + |text|;
    var dot := if d.exponent <= 0 && left > -6 then left else 1;
    var m := Pointed(text, dot);
    PointedStarts(text, dot);
    var tail := if left == dot then "" else "E" + Signed(left - dot);
    ShowPointed(d);
    assert Show(d) == (if d.negative then "-" else "") + (m + tail);
    assert (if d.negative then Show(d)[1..] else Show(d)) == m + tail;
    assert left != dot ==> (m + tail)[|m|] == 'E';
  }

  lemma ShowPointed(d: Decimal)
    ensures var text := Numeral(d.digits);
            var left := d.exponent + |text|;
            var dot := if d.exponent <= 0 && left > -6 then left else 1;
            Show(d) == (if d.negative then "-" else "") + (Pointed(text, dot) + (if left == dot then "" else "E" + Signed(left - dot)))
  {
    var text := Numeral(d.digits);
    hide Numeral, Signed;
    assert text + Zeros(0) == text;
  }
}
