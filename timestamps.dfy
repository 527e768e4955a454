/**
 * The item timestamps: `datetime.strptime(s[:19], '%Y-%m-%dT%H:%M:%S')`.
 * Only the first 19 characters of the API's RFC 3339 date-time are read,
 * so the UTC offset that follows them is discarded.
 */
module Timestamps {
  import opened Wrappers
  import opened Calendar

  const PrefixLength := 19

  predicate IsDigit(c: char) {
    '0' <= c <= '9'
  }

  function DigitChar(n: int): (c: char)
    requires 0 <= n < 10
    ensures IsDigit(c) && Digit(c) == n
  {
    ('0' as int + n) as char
  }

  function Digit(c: char): (n: nat)
    requires IsDigit(c)
    ensures n < 10
  {
    c as int - '0' as int
  }

  /** The value of a run of decimal digits. */
  function DigitsValue(s: string): nat
    requires forall i :: 0 <= i < |s| ==> IsDigit(s[i])
  {
    if s == [] then 0
    else DigitsValue(s[..|s| - 1]) * 10 + Digit(s[|s| - 1])
  }

  function Pad2(n: int): string
    requires 0 <= n < 100
  {
    [DigitChar(n / 10), DigitChar(n % 10)]
  }

  function Pad4(n: int): string
    requires 0 <= n < 10000
  {
    Pad2(n / 100) + Pad2(n % 100)
  }

  /** The 19-character layout `YYYY-MM-DDTHH:MM:SS` that the format string describes. */
  predicate WellShaped(p: string) {
    && |p| == PrefixLength
    && p[4] == '-' && p[7] == '-' && p[10] == 'T' && p[13] == ':' && p[16] == ':'
    && (forall i :: 0 <= i < PrefixLength && i !in {4, 7, 10, 13, 16} ==> IsDigit(p[i]))
  }

  function Fields(p: string): DateTime
    requires WellShaped(p)
  {
    DateTime(
      Date(DigitsValue(p[0..4]), DigitsValue(p[5..7]), DigitsValue(p[8..10])),
      DigitsValue(p[11..13]), DigitsValue(p[14..16]), DigitsValue(p[17..19]))
  }

  /**
   * `datetime.strptime(s[:19], ...)`; None where it raises ValueError:
   * the prefix does not have the layout, or names no real date-time.
   */
  function ParseTimestamp(s: string): Option<DateTime> {
    var p := if |s| < PrefixLength then s else s[..PrefixLength];
    if WellShaped(p) && ValidDateTime(Fields(p)) then Some(Fields(p)) else None
  }

  /** The canonical 19-character text of a date-time. */
  function Format(t: DateTime): (s: string)
    requires ValidDateTime(t)
    ensures |s| == PrefixLength
  {
    Pad4(t.date.year) + "-" + Pad2(t.date.month) + "-" + Pad2(t.date.day) + "T"
      + Pad2(t.hour) + ":" + Pad2(t.minute) + ":" + Pad2(t.second)
  }

  // ---------------------------------------------------------------------
  // Lemmas

  lemma Pad2RoundTrip(n: int)
    requires 0 <= n < 100
    ensures forall i :: 0 <= i < 2 ==> IsDigit(Pad2(n)[i])
    ensures DigitsValue(Pad2(n)) == n
  {
    var s := Pad2(n);
    assert s[..1][..0] == [];
    assert DigitsValue(s[..1]) == n / 10;
  }

  lemma DivMod100(hi: int, lo: int)
    requires 0 <= lo < 100
    ensures (hi * 100 + lo) / 100 == hi && (hi * 100 + lo) % 100 == lo
  {
  }

  /** Four digits are worth a hundred times their first two plus their last two. */
  lemma DigitsValue4(s: string)
    requires |s| == 4 && forall i :: 0 <= i < 4 ==> IsDigit(s[i])
    ensures DigitsValue(s) == DigitsValue(s[..2]) * 100 + DigitsValue(s[2..])
  {
    var a, b, c, d := Digit(s[0]), Digit(s[1]), Digit(s[2]), Digit(s[3]);
    assert s[..3][..2][..1][..0] == [];
    assert s[..3][..2][..1] == s[..1] == [s[0]];
    assert s[..3][..2] == s[..2];
    assert s[..2][..1] == s[..1];
    assert s[2..][..1] == [s[2]];
    assert DigitsValue(s[..1]) == a;
    assert DigitsValue(s[..2]) == a * 10 + b;
    assert DigitsValue(s[2..]) == c * 10 + d;
  }

  lemma Pad4RoundTrip(n: int)
    requires 0 <= n < 10000
    ensures forall i :: 0 <= i < 4 ==> IsDigit(Pad4(n)[i])
    ensures DigitsValue(Pad4(n)) == n
  {
    var s := Pad4(n);
    Pad2RoundTrip(n / 100);
    Pad2RoundTrip(n % 100);
    assert s[..2] == Pad2(n / 100) && s[2..] == Pad2(n % 100);
    DigitsValue4(s);
  }

  lemma Digits2(s: string)
    requires |s| == 2 && IsDigit(s[0]) && IsDigit(s[1])
    ensures DigitsValue(s) < 100 && Pad2(DigitsValue(s)) == s
  {
    assert s[..1][..0] == [];
    var a, b := Digit(s[0]), Digit(s[1]);
    assert s[..1] == [s[0]];
    assert DigitsValue(s[..1]) == a;
    assert DigitsValue(s) == a * 10 + b;
    assert (a * 10 + b) / 10 == a && (a * 10 + b) % 10 == b;
  }

  lemma Digits4(s: string)
    requires |s| == 4 && forall i :: 0 <= i < 4 ==> IsDigit(s[i])
    ensures DigitsValue(s) < 10000 && Pad4(DigitsValue(s)) == s
  {
    DigitsValue4(s);
    Digits2(s[..2]);
    Digits2(s[2..]);
    DivMod100(DigitsValue(s[..2]), DigitsValue(s[2..]));
    assert s == s[..2] + s[2..];
  }

  /**
   * Formatting a date-time and appending any suffix (the UTC offset) parses
   * back to the same date-time: the suffix is ignored.
   */
  lemma ParseFormat(t: DateTime, offset: string)
    requires ValidDateTime(t)
    ensures ParseTimestamp(Format(t) + offset) == Some(t)
  {
    var s := Format(t) + offset;
    var p := s[..PrefixLength];
    assert p == Format(t);
    Pad4RoundTrip(t.date.year);
    Pad2RoundTrip(t.date.month);
    Pad2RoundTrip(t.date.day);
    Pad2RoundTrip(t.hour);
    Pad2RoundTrip(t.minute);
    Pad2RoundTrip(t.second);
    assert p[0..4] == Pad4(t.date.year);
    assert p[5..7] == Pad2(t.date.month);
    assert p[8..10] == Pad2(t.date.day);
    assert p[11..13] == Pad2(t.hour);
    assert p[14..16] == Pad2(t.minute);
    assert p[17..19] == Pad2(t.second);
    assert WellShaped(p);
    assert Fields(p) == t;
  }

  /** Conversely, whatever parses is the canonical text of its result, followed by anything. */
  lemma ParsedIsFormatted(s: string)
    requires ParseTimestamp(s).Some?
    ensures |s| >= PrefixLength && s[..PrefixLength] == Format(ParseTimestamp(s).value)
  {
    LayoutIsFormat(s[..PrefixLength]);
  }

  /** A well-shaped prefix naming a real date-time is that date-time's canonical text. */
  lemma LayoutIsFormat(p: string)
    requires WellShaped(p) && ValidDateTime(Fields(p))
    ensures p == Format(Fields(p))
  {
    Digits4(p[0..4]);
    Digits2(p[5..7]);
    Digits2(p[8..10]);
    Digits2(p[11..13]);
    Digits2(p[14..16]);
    Digits2(p[17..19]);
    assert p == p[0..4] + "-" + p[5..7] + "-" + p[8..10] + "T" + p[11..13] + ":" + p[14..16] + ":" + p[17..19];
  }
}
