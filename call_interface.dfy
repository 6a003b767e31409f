/**
 * The call screen's duration label: minutes and seconds, each left-padded with '0' to two
 * digits, separated by a colon.
 */
module CallInterface {
  import opened JsText

  const Zero: bv16 := 0x30
  const Colon: bv16 := 0x3A

  /** `n.toString().padStart(2, '0')`. */
  function TwoDigits(n: nat): JsString {
    PadStart(Decimal(n), 2, Zero)
  }

  /** `formatDuration(seconds)`: `mm:ss`, with as many minute digits as needed. */
  function FormatDuration(seconds: nat): JsString {
    TwoDigits(seconds / 60) + [Colon] + TwoDigits(seconds % 60)
  }

  /** A padded number is all digits, at least two of them, and reads back as the number. */
  lemma TwoDigitsValue(n: nat)
    ensures var r := TwoDigits(n);
      |r| >= 2 && AllDigits(r) && DigitsValue(r) == n
    ensures n < 100 ==> |TwoDigits(n)| == 2
  {
    var d := Decimal(n);
    var r := TwoDigits(n);
    var z := r[..|r| - |d|];
    assert r == z + d;
    LeadingZerosValue(z, d);
    DecimalValue(n);
  }

  /** The minutes field of a label: everything before the colon. */
  function MinutesField(text: JsString): JsString
    requires |text| >= 3
  {
    text[..|text| - 3]
  }

  /** The seconds field of a label: its last two units. */
  function SecondsField(text: JsString): JsString
    requires |text| >= 3
  {
    text[|text| - 2..]
  }

  /**
   * The label is the minutes field, a colon, and a two-digit seconds field; reading the fields
   * back gives minutes times 60 plus seconds, which is the input, and the seconds field is
   * below 60.
   */
  lemma FormatDurationReadBack(seconds: nat)
    ensures |FormatDuration(seconds)| >= 5 && FormatDuration(seconds)[|FormatDuration(seconds)| - 3] == Colon
    ensures AllDigits(MinutesField(FormatDuration(seconds))) && AllDigits(SecondsField(FormatDuration(seconds)))
    ensures DigitsValue(SecondsField(FormatDuration(seconds))) < 60
    ensures 60 * DigitsValue(MinutesField(FormatDuration(seconds))) + DigitsValue(SecondsField(FormatDuration(seconds))) == seconds
  {
    var q, m := seconds / 60, seconds % 60;
    DivMod60(seconds, q, m);
    var mm, ss := TwoDigits(q), TwoDigits(m);
    TwoDigitsValue(q);
    TwoDigitsValue(m);
    assert |ss| == 2;
    Fields(mm, ss);
    var r := FormatDuration(seconds);
    assert r == mm + [Colon] + ss;
    assert MinutesField(r) == mm && SecondsField(r) == ss;
    assert DigitsValue(MinutesField(r)) == q && DigitsValue(SecondsField(r)) == m;
  }

  /** The two fields of `a:b` when the second is two units long. */
  lemma Fields(a: JsString, b: JsString)
    requires |b| == 2
    ensures var r := a + [Colon] + b;
      |r| == |a| + 3 && r[..|r| - 3] == a && r[|r| - 3] == Colon && r[|r| - 2..] == b
  {
  }

  lemma DivMod60(n: nat, q: nat, m: nat)
    requires q == n / 60 && m == n % 60
    ensures 60 * q + m == n && m < 60
  {
  }

  /** Below 100 minutes the label is exactly five characters with the colon in the middle. */
  lemma FormatDurationShape(seconds: nat)
    requires seconds < 6000
    ensures |FormatDuration(seconds)| == 5 && FormatDuration(seconds)[2] == Colon
  {
    TwoDigitsValue(seconds / 60);
    TwoDigitsValue(seconds % 60);
  }
}
