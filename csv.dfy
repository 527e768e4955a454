/**
 * The text the report is written in: fields joined by ',' without any
 * quoting, and non-negative integers in the decimal form `str()` gives.
 * `ParseNat` and `Split` are the readers these writers are proved against.
 */
module Csv {
  import opened Wrappers
  import opened Timestamps

  /** `str(n)` for a non-negative integer: decimal digits, no leading zero. */
  function NatToString(n: nat): (s: string)
    ensures |s| >= 1 && forall i :: 0 <= i < |s| ==> IsDigit(s[i])
    ensures |s| > 1 ==> s[0] != '0'
    ensures n < 10 <==> |s| == 1
  {
    if n < 10 then [DigitChar(n)] else NatToString(n / 10) + [DigitChar(n % 10)]
  }

  /** A run of decimal digits read as a number; None for anything else. */
  function ParseNat(s: string): Option<nat> {
    if s != [] && forall i :: 0 <= i < |s| ==> IsDigit(s[i]) then Some(DigitsValue(s)) else None
  }

  /** The position of the first `c` in `s`. */
  function IndexOf(s: string, c: char): (i: nat)
    requires c in s
    ensures i < |s| && s[i] == c && c !in s[..i]
  {
    if s[0] == c then 0 else 1 + IndexOf(s[1..], c)
  }

  /** `','.join(fields)`. */
  function Join(fields: seq<string>): string {
    if fields == [] then ""
    else if |fields| == 1 then fields[0]
    else fields[0] + "," + Join(fields[1..])
  }

  /** The fields between the commas of a line. */
  function Split(line: string): (fields: seq<string>)
    ensures |fields| >= 1
    decreases |line|
  {
    if ',' !in line then [line]
    else
      var i := IndexOf(line, ',');
      [line[..i]] + Split(line[i + 1..])
  }

  /** No field holds the separator. */
  predicate Plain(fields: seq<string>) {
    forall k :: 0 <= k < |fields| ==> ',' !in fields[k]
  }

  // ---------------------------------------------------------------------
  // Lemmas

  /** Reading back what `NatToString` wrote gives the number. */
  lemma {:induction false} NatRoundTrip(n: nat)
    ensures ParseNat(NatToString(n)) == Some(n)
    decreases n
  {
    var s := NatToString(n);
    if n < 10 {
      assert s[..|s| - 1] == [];
      assert DigitsValue(s) == Digit(s[0]) == n;
    } else {
      NatRoundTrip(n / 10);
      assert s[..|s| - 1] == NatToString(n / 10);
    }
  }

  /** Different numbers are written differently. */
  lemma NatToStringInjective(m: nat, n: nat)
    requires NatToString(m) == NatToString(n)
    ensures m == n
  {
    NatRoundTrip(m);
    NatRoundTrip(n);
  }

  /** The first `c` of `a + [c] + b`, where `a` holds none, is right after `a`. */
  lemma {:induction false} IndexOfAfter(a: string, c: char, b: string)
    requires c !in a
    ensures IndexOf(a + [c] + b, c) == |a|
    decreases |a|
  {
    var s := a + [c] + b;
    if a != [] {
      assert s[0] == a[0] != c;
      assert s[1..] == a[1..] + [c] + b;
      IndexOfAfter(a[1..], c, b);
    }
  }

  /** A first field without commas is split off whole. */
  lemma SplitFirst(first: string, rest: string)
    requires ',' !in first
    ensures Split(first + "," + rest) == [first] + Split(rest)
  {
    var line := first + "," + rest;
    assert line == first + [','] + rest;
    IndexOfAfter(first, ',', rest);
    assert line[..|first|] == first;
    assert line[|first| + 1..] == rest;
  }

  lemma PlainRest(fields: seq<string>)
    requires fields != [] && Plain(fields)
    ensures ',' !in fields[0] && Plain(fields[1..])
  {
    forall k | 0 <= k < |fields| - 1
      ensures ',' !in fields[1..][k]
    {
      assert fields[1..][k] == fields[k + 1];
    }
  }

  /** Splitting a line joined from fields without commas gives the fields back. */
  lemma {:induction false} SplitJoin(fields: seq<string>)
    requires fields != [] && Plain(fields)
    ensures Split(Join(fields)) == fields
    decreases |fields|
  {
    if |fields| == 1 {
      assert ',' !in fields[0];
    } else {
      var rest := fields[1..];
      PlainRest(fields);
      SplitJoin(rest);
      SplitFirst(fields[0], Join(rest));
      assert fields == [fields[0]] + rest;
    }
  }
}
