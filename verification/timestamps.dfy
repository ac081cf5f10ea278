/**
 * The date value of a notification: a timestamp rendered with the format
 * "%Y-%m-%d %H:%M:%S". Only the zero-padded formatting is modelled; calendar
 * arithmetic and time zones belong to the platform's datetime type.
 */
module Timestamps {
  import opened Text

  /** A naive datetime, field by field. */
  datatype Timestamp = Timestamp(year: int, month: int, day: int, hour: int, minute: int, second: int)

  /** The ranges a datetime object guarantees for its fields. */
  predicate Valid(t: Timestamp) {
    && 1 <= t.year <= 9999
    && 1 <= t.month <= 12
    && 1 <= t.day <= 31
    && 0 <= t.hour <= 23
    && 0 <= t.minute <= 59
    && 0 <= t.second <= 59
  }

  function Pow10(n: nat): (r: nat)
    ensures r >= 1
  {
    if n == 0 then 1 else 10 * Pow10(n - 1)
  }

  /** The decimal digit character for `d`. */
  function DigitChar(d: nat): (c: char)
    requires d < 10
    ensures IsDigit(c)
  {
    ('0' as int + d) as char
  }

  /** The numeric value of a string of decimal digits. */
  function DigitsValue(s: string): nat
    requires All(s, IsDigit)
  {
    if s == [] then 0
    else
      assert All(s[..|s| - 1], IsDigit);
      10 * DigitsValue(s[..|s| - 1]) + (s[|s| - 1] as int - '0' as int)
  }

  /** `n` written in exactly `width` decimal digits, with leading zeros. */
  function Pad(n: nat, width: nat): (r: string)
    ensures |r| == width && All(r, IsDigit)
  {
    if width == 0 then "" else Pad(n / 10, width - 1) + [DigitChar(n % 10)]
  }

  /** Padding loses nothing when the number fits the width: reading the digits back gives it. */
  lemma {:induction false} PadRoundTrip(n: nat, width: nat)
    requires n < Pow10(width)
    ensures DigitsValue(Pad(n, width)) == n
  {
    if width > 0 {
      PadRoundTrip(n / 10, width - 1);
      var r := Pad(n, width);
      assert r[..|r| - 1] == Pad(n / 10, width - 1);
    }
  }

  /** `r` has the shape "YYYY-MM-DD HH:MM:SS". */
  predicate IsDateTimeText(r: string) {
    && |r| == 19
    && r[4] == '-' && r[7] == '-' && r[10] == ' ' && r[13] == ':' && r[16] == ':'
    && All(r[0..4], IsDigit) && All(r[5..7], IsDigit) && All(r[8..10], IsDigit)
    && All(r[11..13], IsDigit) && All(r[14..16], IsDigit) && All(r[17..19], IsDigit)
  }

  /** A formatted date holds only digits, `-`, ` ` and `:`; in particular no backtick. */
  lemma DateTimeTextIsCodeSafe(r: string)
    requires IsDateTimeText(r)
    ensures '`' !in r
  {
    forall k | 0 <= k < 19
      ensures r[k] != '`'
    {
      if k < 4 { assert r[0..4][k] == r[k]; }
      else if 4 < k < 7 { assert r[5..7][k - 5] == r[k]; }
      else if 7 < k < 10 { assert r[8..10][k - 8] == r[k]; }
      else if 10 < k < 13 { assert r[11..13][k - 11] == r[k]; }
      else if 13 < k < 16 { assert r[14..16][k - 14] == r[k]; }
      else if 16 < k { assert r[17..19][k - 17] == r[k]; }
    }
  }

  /** `t.strftime("%Y-%m-%d %H:%M:%S")`. */
  function Format(t: Timestamp): (r: string)
    requires Valid(t)
    ensures IsDateTimeText(r)
  {
    var r := Pad(t.year, 4) + "-" + Pad(t.month, 2) + "-" + Pad(t.day, 2) + " "
      + Pad(t.hour, 2) + ":" + Pad(t.minute, 2) + ":" + Pad(t.second, 2);
    assert r[0..4] == Pad(t.year, 4);
    assert r[5..7] == Pad(t.month, 2);
    assert r[8..10] == Pad(t.day, 2);
    assert r[11..13] == Pad(t.hour, 2);
    assert r[14..16] == Pad(t.minute, 2);
    assert r[17..19] == Pad(t.second, 2);
    r
  }

  /** Reads the fields back from a "YYYY-MM-DD HH:MM:SS" text. */
  function Parse(r: string): Timestamp
    requires IsDateTimeText(r)
  {
    Timestamp(DigitsValue(r[0..4]), DigitsValue(r[5..7]), DigitsValue(r[8..10]),
              DigitsValue(r[11..13]), DigitsValue(r[14..16]), DigitsValue(r[17..19]))
  }

  /** The formatted date determines the timestamp: parsing it back gives every field. */
  lemma ParseFormat(t: Timestamp)
    requires Valid(t)
    ensures Parse(Format(t)) == t
  {
    var r := Format(t);
    assert r[0..4] == Pad(t.year, 4);
    assert r[5..7] == Pad(t.month, 2);
    assert r[8..10] == Pad(t.day, 2);
    assert r[11..13] == Pad(t.hour, 2);
    assert r[14..16] == Pad(t.minute, 2);
    assert r[17..19] == Pad(t.second, 2);
    assert Pow10(4) == 10000 && Pow10(2) == 100;
    PadRoundTrip(t.year, 4);
    PadRoundTrip(t.month, 2);
    PadRoundTrip(t.day, 2);
    PadRoundTrip(t.hour, 2);
    PadRoundTrip(t.minute, 2);
    PadRoundTrip(t.second, 2);
  }

  /** Distinct timestamps are formatted to distinct texts. */
  lemma FormatInjective(t1: Timestamp, t2: Timestamp)
    requires Valid(t1) && Valid(t2) && Format(t1) == Format(t2)
    ensures t1 == t2
  {
    ParseFormat(t1);
    ParseFormat(t2);
  }
}
