/** Text helpers shared by the model: Python's `str.split` on one separator
    character, `sep.join(parts)`, and decimal rendering of integers (`%d`). */
module Strings {

  /** `sep.join(parts)`. */
  function Join(sep: string, parts: seq<string>): (joined: string)
    ensures parts == [] ==> joined == ""
    ensures |parts| == 1 ==> joined == parts[0]
    ensures |parts| >= 1 ==> parts[0] <= joined
    decreases |parts|
  {
    if |parts| == 0 then ""
    else if |parts| == 1 then parts[0]
    else parts[0] + sep + Join(sep, parts[1..])
  }

  /** Number of occurrences of `c` in `s`. */
  function Occurrences(s: string, c: char): nat
    decreases |s|
  {
    if s == [] then 0 else (if s[0] == c then 1 else 0) + Occurrences(s[1..], c)
  }

  /** `s.split(c)` for a one-character separator: the maximal runs between
      separators, empty runs included, so there is always at least one part. */
  function Split(s: string, c: char): (parts: seq<string>)
    ensures |parts| >= 1
    decreases |s|
  {
    if s == [] then [""]
    else if s[0] == c then [""] + Split(s[1..], c)
    else
      var rest := Split(s[1..], c);
      [[s[0]] + rest[0]] + rest[1..]
  }

  /** Splitting yields one more part than there are separators. */
  lemma {:induction false} SplitCount(s: string, c: char)
    ensures |Split(s, c)| == Occurrences(s, c) + 1
    decreases |s|
  {
    if s != [] {
      SplitCount(s[1..], c);
    }
  }

  /** No part contains the separator. */
  lemma {:induction false} SplitPartsAvoidSeparator(s: string, c: char)
    ensures forall i :: 0 <= i < |Split(s, c)| ==> c !in Split(s, c)[i]
    decreases |s|
  {
    if s != [] {
      SplitPartsAvoidSeparator(s[1..], c);
      var rest := Split(s[1..], c);
      if s[0] != c {
        assert c !in rest[0];
        assert c !in [s[0]] + rest[0];
        forall i | 1 <= i < |rest| ensures c !in rest[i] { }
      }
    }
  }

  /** Joining the parts with the separator gives back the original text. */
  lemma {:induction false} SplitJoin(s: string, c: char)
    ensures Join([c], Split(s, c)) == s
    decreases |s|
  {
    if s != [] {
      SplitJoin(s[1..], c);
      var rest := Split(s[1..], c);
      if s[0] == c {
        assert Split(s, c) == [""] + rest;
        assert Join([c], [""] + rest) == "" + [c] + Join([c], rest);
      } else {
        var parts := Split(s, c);
        assert parts == [[s[0]] + rest[0]] + rest[1..];
        if |rest| == 1 {
          assert Join([c], parts) == [s[0]] + rest[0];
        } else {
          assert parts[1..] == rest[1..];
          assert Join([c], parts) == [s[0]] + rest[0] + [c] + Join([c], rest[1..]);
          assert Join([c], rest) == rest[0] + [c] + Join([c], rest[1..]);
        }
      }
    }
  }

  /** Text free of the separator splits into itself. */
  lemma {:induction false} SplitWithoutSeparator(s: string, c: char)
    requires c !in s
    ensures Split(s, c) == [s]
    decreases |s|
  {
    if s != [] {
      assert c !in s[1..];
      SplitWithoutSeparator(s[1..], c);
      assert s[0] != c;
      assert [s[0]] + s[1..] == s;
    }
  }

  /** Text before the first separator becomes the first part. */
  lemma {:induction false} SplitAtFirstSeparator(a: string, c: char, b: string)
    requires c !in a
    ensures Split(a + [c] + b, c) == [a] + Split(b, c)
    decreases |a|
  {
    if a == [] {
      assert a + [c] + b == [c] + b;
    } else {
      assert (a + [c] + b)[1..] == a[1..] + [c] + b;
      assert c !in a[1..];
      SplitAtFirstSeparator(a[1..], c, b);
      assert [a[0]] + a[1..] == a;
    }
  }

  /** The character of one decimal digit. */
  function DigitChar(d: nat): char
    requires d < 10
  {
    ('0' as int + d) as char
  }

  /** Every character of `s` is an ASCII digit. */
  predicate IsDigits(s: string)
  {
    forall i :: 0 <= i < |s| ==> '0' <= s[i] <= '9'
  }

  /** The number a run of decimal digits denotes, most significant first. */
  function DigitsValue(s: string): nat
    requires IsDigits(s)
  {
    if s == [] then 0 else 10 * DigitsValue(s[..|s| - 1]) + (s[|s| - 1] as int - '0' as int)
  }

  /** What Python's `%d` prints: an optional `-`, then digits with no
      leading zero, and never `-0`. */
  predicate IsDecimal(text: string)
  {
    var digits := if text != [] && text[0] == '-' then text[1..] else text;
    && digits != []
    && IsDigits(digits)
    && (digits[0] == '0' ==> digits == "0" && text == "0")
  }

  /** The integer a text of the `IsDecimal` form denotes. */
  function DecimalValue(text: string): int
    requires IsDecimal(text)
  {
    if text[0] == '-' then -(DigitsValue(text[1..]) as int) else DigitsValue(text)
  }

  /** Decimal digits of a natural number, without leading zeros. */
  function NaturalDecimal(n: nat): (s: string)
    ensures |s| >= 1
    ensures IsDigits(s)
    decreases n
  {
    if n < 10 then [DigitChar(n)] else NaturalDecimal(n / 10) + [DigitChar(n % 10)]
  }

  /** The digits of `n` read back as `n`, and only zero starts with `0`. */
  lemma {:induction false} NaturalDecimalValue(n: nat)
    ensures DigitsValue(NaturalDecimal(n)) == n
    ensures NaturalDecimal(n)[0] == '0' <==> n == 0
    decreases n
  {
    var s := NaturalDecimal(n);
    if n >= 10 {
      NaturalDecimalValue(n / 10);
      assert s[..|s| - 1] == NaturalDecimal(n / 10);
      assert s[0] == NaturalDecimal(n / 10)[0];
    }
  }

  /** `'%d' % n` and `str(n)` for an integer. */
  function Decimal(n: int): (text: string)
    ensures |text| >= 1 && (n < 0 <==> text[0] == '-')
  {
    if n < 0 then "-" + NaturalDecimal(-n) else NaturalDecimal(n)
  }

  /** `%d` prints every integer in canonical decimal form, and reading the
      text back gives the integer: distinct integers print differently. */
  lemma DecimalRoundTrip(n: int)
    ensures IsDecimal(Decimal(n))
    ensures DecimalValue(Decimal(n)) == n
  {
    if n < 0 {
      var digits := NaturalDecimal(-n);
      NaturalDecimalValue(-n);
      assert Decimal(n) == "-" + digits;
      assert ("-" + digits)[1..] == digits;
      assert DigitsValue(digits) == -n && digits[0] != '0';
    } else {
      NaturalDecimalValue(n);
    }
  }
}
