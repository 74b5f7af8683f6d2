/**
 Numbers as they are printed into the metadata of an object and read back.
 */
module Decimals {
  import opened Common

  function Digit(d: nat): char
    requires d < 10
  {
    ('0' as int + d) as char
  }

  predicate IsDigit(c: char) {
    '0' <= c <= '9'
  }

  function Value(c: char): (d: nat)
    requires IsDigit(c)
    ensures d < 10 && Digit(d) == c
  {
    c as int - '0' as int
  }

  function Digits(n: nat): (s: string)
    ensures s != "" && forall i :: 0 <= i < |s| ==> IsDigit(s[i])
  {
    if n < 10 then [Digit(n)] else Digits(n / 10) + [Digit(n % 10)]
  }

  function Decimal(n: int): (s: string)
    ensures s != "" && forall i :: 0 <= i < |s| ==> s[i] != '\0'
  {
    if n < 0 then "-" + Digits(-n) else Digits(n)
  }

  predicate IsSpace(c: char) {
    c == ' ' || '\t' <= c <= '\r'
  }

  /** The digits a string begins with, read after the number `n`. */
  function ReadDigits(s: string, n: nat): nat {
    if s != "" && IsDigit(s[0]) then ReadDigits(s[1..], 10 * n + Value(s[0])) else n
  }

  /** A number as the C library reads it: after any space and a sign, what digits there are, of which there must be one. */
  function ReadNumber(s: string): Option<int> {
    if s == "" then None
    else if IsSpace(s[0]) then ReadNumber(s[1..])
    else
      var signed := s[0] == '-' || s[0] == '+';
      var digits := if signed then s[1..] else s;
      if digits == "" || !IsDigit(digits[0]) then None
      else
        var n: int := ReadDigits(digits, 0);
        Some(if s[0] == '-' then -n else n)
  }

  const SIZE_LIMIT := 0x1_0000_0000_0000_0000

  type Size = n: nat | n < SIZE_LIMIT

  type Time = n: int | -SIZE_LIMIT / 2 <= n < SIZE_LIMIT / 2

  /** A number read where a size is expected: one too large becomes the largest, and a negative one wraps around. */
  function ReadSize(s: string): Option<Size> {
    match ReadNumber(s)
    case None => None
    case Some(n) =>
      if n >= SIZE_LIMIT || n <= -SIZE_LIMIT then Some(SIZE_LIMIT - 1)
      else if n < 0 then Some(n + SIZE_LIMIT) else Some(n)
  }

  /** A number read where a time is expected: one out of range is none. */
  function ReadTime(s: string): Option<Time> {
    match ReadNumber(s)
    case None => None
    case Some(n) => if -SIZE_LIMIT / 2 <= n < SIZE_LIMIT / 2 then Some(n) else None
  }

  lemma {:induction false} ReadsOn(s: string, d: char, n: nat)
    requires IsDigit(d) && forall i :: 0 <= i < |s| ==> IsDigit(s[i])
    ensures ReadDigits(s + [d], n) == 10 * ReadDigits(s, n) + Value(d)
  {
    if s == "" {
      assert ("" + [d])[1..] == "";
    } else {
      assert (s + [d])[1..] == s[1..] + [d];
      ReadsOn(s[1..], d, 10 * n + Value(s[0]));
    }
  }

  lemma {:induction false} DigitsReadBack(n: nat)
    ensures ReadDigits(Digits(n), 0) == n
  {
    if n >= 10 {
      DigitsReadBack(n / 10);
      ReadsOn(Digits(n / 10), Digit(n % 10), 0);
    } else {
      assert Digits(n)[1..] == "";
    }
  }

  lemma DecimalReadsBack(n: int)
    ensures ReadNumber(Decimal(n)) == Some(n)
  {
    if n < 0 {
      DigitsReadBack(-n);
      assert Decimal(n)[1..] == Digits(-n);
    } else {
      DigitsReadBack(n);
    }
  }

  /** Numbers are written to the base ten, the most significant digit first. */
  lemma WrittenToTheBaseTen()
    ensures Decimal(1907) == "1907" && Decimal(-42) == "-42" && Decimal(0) == "0"
  {
    assert Digits(1907) == Digits(190) + "7" && Digits(190) == Digits(19) + "0" && Digits(19) == Digits(1) + "9";
    assert Digits(42) == Digits(4) + "2";
  }

  lemma SpaceIsSkipped(c: char, s: string)
    requires c == ' ' || c == '\t' || c == '\n' || c == '\r'
    ensures ReadNumber([c] + s) == ReadNumber(s)
  {
    assert ([c] + s)[1..] == s;
  }
}
