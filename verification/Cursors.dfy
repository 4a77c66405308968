// selected_cursor: which position a stream opens at, or why it does not.
module Cursors {
  import opened EventTypes
  import opened Digits
  import opened Decimals

  /** Python's limit on the digits int() converts. */
  const INT_DIGITS: nat := 4300

  /** events.seq is a bigint. */
  const BIGINT_END: nat := 0x8000_0000_0000_0000

  datatype Selection = Malformed | Ahead | At(cursor: nat)

  /** Every supplied value is judged by its spelling, the selected one by its value. The header
      outranks the query, whose last value is the one bound. */
  function SelectedCursor(after: seq<string>, header: Option<string>, highest: nat): Selection {
    if !Spelled(after, header) then Malformed
    else if |Selected(after, header)| > INT_DIGITS then Malformed
    else if Value(Selected(after, header)) > highest then Ahead
    else At(Value(Selected(after, header)))
  }

  predicate Spelled(after: seq<string>, header: Option<string>) {
    (header.Some? ==> AllDigits(header.value)) && forall i :: 0 <= i < |after| ==> AllDigits(after[i])
  }

  /** `last_event_id or after or "0"`, over values already found non-empty. */
  function Selected(after: seq<string>, header: Option<string>): (raw: string)
    requires Spelled(after, header)
    ensures AllDigits(raw)
  {
    if header.Some? then header.value else if after != [] then after[|after| - 1] else "0"
  }

  /** A client's own cursor is never refused: the printed id of any committed event opens the stream
      right after that event, whatever well-formed `after` is still in the query. */
  lemma OwnCursorAccepted(after: seq<string>, seqNo: nat, highest: nat)
    requires forall i :: 0 <= i < |after| ==> AllDigits(after[i])
    requires seqNo <= highest && seqNo < BIGINT_END
    ensures SelectedCursor(after, Some(Numeral(seqNo)), highest) == At(seqNo)
  {
    ValueOfNumeral(seqNo);
    ShortNumeral(seqNo);
  }

  /** And nothing else spells it but with leading zeros: a header without them opens the stream after a
      committed event if and only if it is that event's printed seq. */
  lemma AcceptedIsPrinted(after: seq<string>, header: string, seqNo: nat, highest: nat)
    requires forall i :: 0 <= i < |after| ==> AllDigits(after[i])
    requires seqNo <= highest && seqNo < BIGINT_END && (|header| > 1 ==> header[0] != '0')
    ensures SelectedCursor(after, Some(header), highest) == At(seqNo) <==> header == Numeral(seqNo)
  {
    OwnCursorAccepted(after, seqNo, highest);
    if AllDigits(header) {
      NumeralOfValue(header);
    }
  }

  lemma ShortNumeral(n: nat)
    requires n < BIGINT_END
    ensures |Numeral(n)| <= 19
  {
    PowSum(9, 10);
    assert Pow10(9) == 1000000000 && Pow10(10) == 10000000000;
    NumeralLength(n, 19);
  }

  /** A cursor as anyone may write it: leading zeros and a number. */
  function WrittenCursor(zeros: nat, n: nat): string {
    Zeros(zeros) + Numeral(n)
  }

  /** The header if there is one, else the last `after`, opens the stream exactly at the number it spells:
      refused as ahead when no such event is committed, as malformed past 4300 digits. The other values
      are read only for their spelling. */
  lemma WrittenOpens(after: seq<string>, header: Option<string>, zeros: nat, n: nat, highest: nat)
    requires header.Some? || after != []
    requires (if header.Some? then header.value else after[|after| - 1]) == WrittenCursor(zeros, n)
    ensures SelectedCursor(after, header, highest)
            == if exists i :: 0 <= i < |after| && !AllDigits(after[i]) then Malformed
               else if zeros + |Numeral(n)| > 4300 then Malformed
               else if n <= highest then At(n) else Ahead
  {
    hide Numeral, Value;
    LeadingZeros(zeros, Numeral(n));
    ValueOfNumeral(n);
    assert |WrittenCursor(zeros, n)| == zeros + |Numeral(n)|;
  }

  /** What is not digits is malformed, wherever it stands; and a bare request opens at the beginning. */
  lemma MisspeltIsRefused(after: seq<string>, header: Option<string>, highest: nat)
    ensures (header.Some? && !AllDigits(header.value)) || (exists i :: 0 <= i < |after| && !AllDigits(after[i]))
            ==> SelectedCursor(after, header, highest) == Malformed
    ensures header == None && after == [] ==> SelectedCursor(after, header, highest) == At(0)
  {
    assert "0"[..0] == "" && Value("") == 0;
  }
}
